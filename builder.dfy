/** The column layout of `src/builder/mod.rs`: columns of items printed
    side by side, row by row, every column but the last padded with spaces
    to a common tab width. Lengths are counted in characters. */
module Builder {
  import opened Strings

  /** A layout: `inner` holds the columns, each a sequence of items;
      `largest` is the number of rows printed and `tabsize` the width every
      padded item is brought up to. `swap` is computed but never read. */
  datatype Builder = Builder(swap: bool, inner: seq<seq<string>>, tabsize: nat, largest: nat)

  function Max(a: nat, b: nat): (m: nat)
    ensures a <= m && b <= m && (m == a || m == b)
  {
    if a < b then b else a
  }

  // ---------------------------------------------------------------------
  // `from`

  /** The number of items in the longest column; 0 when there is none. */
  function Tallest(f: seq<seq<string>>): (n: nat)
    ensures forall k :: 0 <= k < |f| ==> |f[k]| <= n
    ensures n > 0 ==> exists k :: 0 <= k < |f| && |f[k]| == n
    decreases |f|
  {
    if f == [] then 0 else Max(Tallest(f[..|f| - 1]), |f[|f| - 1]|)
  }

  /** The length of the longest item of one column; 0 when there is none. */
  function WidestItem(column: seq<string>): (n: nat)
    ensures forall j :: 0 <= j < |column| ==> |column[j]| <= n
    ensures n > 0 ==> exists j :: 0 <= j < |column| && |column[j]| == n
    decreases |column|
  {
    if column == [] then 0 else Max(WidestItem(column[..|column| - 1]), |column[|column| - 1]|)
  }

  /** The length of the longest item of all columns; 0 when there is none. */
  function Widest(f: seq<seq<string>>): (n: nat)
    ensures forall k, j :: 0 <= k < |f| && 0 <= j < |f[k]| ==> |f[k][j]| <= n
    ensures n > 0 ==> exists k, j :: 0 <= k < |f| && 0 <= j < |f[k]| && |f[k][j]| == n
    decreases |f|
  {
    if f == [] then 0
    else
      var n := Max(Widest(f[..|f| - 1]), WidestItem(f[|f| - 1]));
      assert forall k :: 0 <= k < |f| - 1 ==> f[..|f| - 1][k] == f[k];
      n
  }

  /** The layout `from` builds: all items fit three columns short of the
      tab width, there are as many rows as the longest column has items,
      and `swap` records whether some column has more than 80 items. */
  function Layout(f: seq<seq<string>>): (b: Builder)
    ensures b.inner == f
    ensures forall k, j :: 0 <= k < |f| && 0 <= j < |f[k]| ==> |f[k][j]| + 3 <= b.tabsize
    ensures b.tabsize == 3 || exists k, j :: 0 <= k < |f| && 0 <= j < |f[k]| && |f[k][j]| + 3 == b.tabsize
    ensures forall k :: 0 <= k < |f| ==> |f[k]| <= b.largest
    ensures b.largest == 0 || exists k :: 0 <= k < |f| && |f[k]| == b.largest
    ensures b.swap <==> exists k :: 0 <= k < |f| && |f[k]| > 80
  {
    Builder(Tallest(f) > 80, f, Widest(f) + 3, Tallest(f))
  }

  /** `from`: each field but `inner` is one block of the struct literal,
      a pass over the columns that tracks a maximum. */
  method From(f: seq<seq<string>>) returns (b: Builder)
    ensures b == Layout(f)
  {
    var swap := SwapBlock(f);
    var tabsize := TabsizeBlock(f);
    var largest := LargestBlock(f);
    b := Builder(swap, f, tabsize, largest);
  }

  /** Whether the longest column has more than 80 items. */
  method SwapBlock(f: seq<seq<string>>) returns (swap: bool)
    ensures swap == (Tallest(f) > 80)
  {
    var largest := 0;
    for k := 0 to |f|
      invariant largest == Tallest(f[..k])
    {
      assert f[..k + 1][..k] == f[..k];
      if |f[k]| > largest {
        largest := |f[k]|;
      }
    }
    assert f[..|f|] == f;
    swap := largest > 80;
  }

  /** The longest item plus three. */
  method TabsizeBlock(f: seq<seq<string>>) returns (tabsize: nat)
    ensures tabsize == Widest(f) + 3
  {
    var size := 0;
    for k := 0 to |f|
      invariant size == Widest(f[..k])
    {
      assert f[..k + 1][..k] == f[..k];
      var line := f[k];
      for j := 0 to |line|
        invariant size == Max(Widest(f[..k]), WidestItem(line[..j]))
      {
        assert line[..j + 1][..j] == line[..j];
        size := Max(size, |line[j]|);
      }
      assert line[..|line|] == line;
    }
    assert f[..|f|] == f;
    tabsize := size + 3;
  }

  /** The number of items of the longest column. */
  method LargestBlock(f: seq<seq<string>>) returns (largest: nat)
    ensures largest == Tallest(f)
  {
    var largestLineCount := 0;
    for k := 0 to |f|
      invariant largestLineCount == Tallest(f[..k])
    {
      assert f[..k + 1][..k] == f[..k];
      if largestLineCount < |f[k]| {
        largestLineCount := |f[k]|;
      }
    }
    assert f[..|f|] == f;
    largest := largestLineCount;
  }

  /** A maximum is determined by its two defining properties. */
  lemma TallestUnique(f: seq<seq<string>>, n: nat)
    requires forall k :: 0 <= k < |f| ==> |f[k]| <= n
    requires n > 0 ==> exists k :: 0 <= k < |f| && |f[k]| == n
    ensures n == Tallest(f)
  {
  }

  lemma WidestUnique(f: seq<seq<string>>, n: nat)
    requires forall k, j :: 0 <= k < |f| && 0 <= j < |f[k]| ==> |f[k][j]| <= n
    requires n > 0 ==> exists k, j :: 0 <= k < |f| && 0 <= j < |f[k]| && |f[k][j]| == n
    ensures n == Widest(f)
  {
  }

  // ---------------------------------------------------------------------
  // `swap` and `set_tab`

  /** The columns in reverse order. */
  function Reverse(s: seq<seq<string>>): (r: seq<seq<string>>)
    ensures |r| == |s|
    ensures forall k :: 0 <= k < |s| ==> r[k] == s[|s| - 1 - k]
    decreases |s|
  {
    if s == [] then [] else [s[|s| - 1]] + Reverse(s[..|s| - 1])
  }

  /** `swap`: a copy with the column order reversed when asked, an
      identical copy otherwise. */
  function Swap(b: Builder, swap: bool): (r: Builder)
    ensures r.swap == b.swap && r.tabsize == b.tabsize && r.largest == b.largest
    ensures |r.inner| == |b.inner|
    ensures swap ==> forall k :: 0 <= k < |b.inner| ==> r.inner[k] == b.inner[|b.inner| - 1 - k]
    ensures !swap ==> r == b
  {
    if swap then b.(inner := Reverse(b.inner)) else b
  }

  /** `set_tab`: a copy with a new tab width and nothing else changed. */
  function SetTab(b: Builder, tabsize: nat): (r: Builder)
    ensures r.tabsize == tabsize
    ensures r.inner == b.inner && r.largest == b.largest && r.swap == b.swap
  {
    Builder(b.swap, b.inner, tabsize, b.largest)
  }

  /** Swapping twice restores the layout. */
  lemma SwapTwice(b: Builder)
    ensures Swap(Swap(b, true), true) == b
  {
    var r := Swap(Swap(b, true), true);
    assert r.inner == b.inner;
  }

  /** Only the last `set_tab` counts, and setting the same width is a no-op. */
  lemma SetTabLastWins(b: Builder, t1: nat, t2: nat)
    ensures SetTab(SetTab(b, t1), t2) == SetTab(b, t2)
    ensures SetTab(b, b.tabsize) == b
  {
  }

  /** Swapping a built layout is building from the reversed columns: the
      maxima `from` computes do not depend on the column order. */
  lemma SwapLayout(f: seq<seq<string>>)
    ensures Swap(Layout(f), true) == Layout(Reverse(f))
  {
    var r := Reverse(f);
    assert forall k :: 0 <= k < |f| ==> f[k] == r[|f| - 1 - k];
    TallestUnique(r, Tallest(f));
    WidestUnique(r, Widest(f));
  }

  // ---------------------------------------------------------------------
  // `column_builder`

  /** The item a column shows on row `i`: "" past its end. */
  function Item(column: seq<string>, i: nat): string
  {
    if i < |column| then column[i] else ""
  }

  /** `position`: the index of the first column equal to `column`. */
  function Position(inner: seq<seq<string>>, column: seq<string>): Option<nat>
    decreases |inner|
  {
    if inner == [] then None
    else if inner[0] == column then Some(0)
    else match Position(inner[1..], column)
      case None => None
      case Some(k) => Some(k + 1)
  }

  /** `position` finds the first equal column, or none when there is none. */
  lemma {:induction false} PositionFirst(inner: seq<seq<string>>, column: seq<string>)
    ensures var r := Position(inner, column);
            (r.Some? ==> r.value < |inner| && inner[r.value] == column) &&
            (r.Some? ==> forall k :: 0 <= k < r.value ==> inner[k] != column) &&
            (r.None? ==> column !in inner)
    decreases |inner|
  {
    if inner != [] && inner[0] != column {
      PositionFirst(inner[1..], column);
      assert forall k :: 1 <= k < |inner| ==> inner[k] == inner[1..][k - 1];
      if column in inner {
        var k :| 0 <= k < |inner| && inner[k] == column;
        assert column in inner[1..] by { assert inner[1..][k - 1] == column; }
      }
    }
  }

  /** Whether column `c` is padded: the test looks for the first column
      equal to it and pads unless that one is the last. */
  predicate Pads(b: Builder, c: nat)
    requires c < |b.inner|
  {
    Position(b.inner, b.inner[c]) != Some(|b.inner| - 1)
  }

  /** What column `c` contributes to row `i`: its item, followed by spaces
      up to the tab width when it is short and the column is padded. The
      item is never cut. */
  function Cell(b: Builder, c: nat, i: nat): string
    requires c < |b.inner|
  {
    var item := Item(b.inner[c], i);
    if |item| < b.tabsize && Pads(b, c) then item + Spaces(b.tabsize - |item|) else item
  }

  lemma CellShape(b: Builder, c: nat, i: nat)
    requires c < |b.inner|
    ensures var item, cell := Item(b.inner[c], i), Cell(b, c, i);
            |item| <= |cell| && cell[..|item|] == item &&
            (forall k :: |item| <= k < |cell| ==> cell[k] == ' ') &&
            |cell| == if Pads(b, c) then Max(|item|, b.tabsize) else |item|
  {
  }

  /** The cells of row `i`, one per column. */
  function Cells(b: Builder, i: nat): (cells: seq<string>)
    ensures |cells| == |b.inner|
  {
    seq(|b.inner|, c requires 0 <= c < |b.inner| => Cell(b, c, i))
  }

  /** The first `n` cells laid end to end. */
  function Join(cells: seq<string>, n: nat): string
    requires n <= |cells|
  {
    if n == 0 then "" else Join(cells, n - 1) + cells[n - 1]
  }

  /** Row `i` as far as the first `n` columns. */
  function Line(b: Builder, i: nat, n: nat): string
    requires n <= |b.inner|
  {
    Join(Cells(b, i), n)
  }

  /** Row `i`, without its line end. */
  function Row(b: Builder, i: nat): string
  {
    Line(b, i, |b.inner|)
  }

  /** The printed rows, without their line ends. */
  function Rows(b: Builder): (rows: seq<string>)
    ensures |rows| == b.largest
  {
    seq(b.largest, i requires 0 <= i => Row(b, i))
  }

  /** Everything `column_builder` prints. */
  function Output(b: Builder): string
  {
    Terminated(Rows(b), '\n')
  }

  /** `create_spaces`: a string of `size` spaces, one at a time. */
  method CreateSpaces(size: nat) returns (spaces: string)
    ensures spaces == Spaces(size)
  {
    spaces := "";
    var i := 0;
    while i < size
      invariant i <= size
      invariant spaces == Spaces(i)
    {
      assert Spaces(i) + " " == Spaces(i + 1);
      spaces := spaces + " ";
      i := i + 1;
    }
  }

  /** `column_builder`: row by row, each followed by a line end. */
  method ColumnBuilder(b: Builder) returns (f: string)
    ensures f == Output(b)
  {
    var i := 0;
    f := "";
    while i < b.largest
      invariant i <= b.largest
      invariant f == Terminated(Rows(b)[..i], '\n')
    {
      var line := BuildRow(b, i);
      assert Rows(b)[..i + 1][..i] == Rows(b)[..i];
      i := i + 1;
      f := f + line + "\n";
    }
    assert Rows(b)[..i] == Rows(b);
  }

  /** The body of `column_builder`'s loop: one row, column by column. */
  method BuildRow(b: Builder, i: nat) returns (line: string)
    ensures line == Row(b, i)
  {
    line := "";
    for c := 0 to |b.inner|
      invariant line == Line(b, i, c)
    {
      var item := b.inner[c];
      var wallItem := if i < |item| then item[i] else "";
      line := line + wallItem;
      if |wallItem| < b.tabsize && Position(b.inner, item) != Some(|b.inner| - 1) {
        var pad := CreateSpaces(b.tabsize - |wallItem|);
        PaddedStep(b, i, c, pad);
        line := line + pad;
      } else {
        UnpaddedStep(b, i, c);
      }
    }
  }

  /** A padded column adds its item and then the spaces. */
  lemma PaddedStep(b: Builder, i: nat, c: nat, pad: string)
    requires c < |b.inner|
    requires var item := Item(b.inner[c], i);
             |item| < b.tabsize && Pads(b, c) && pad == Spaces(b.tabsize - |item|)
    ensures Line(b, i, c) + Item(b.inner[c], i) + pad == Line(b, i, c + 1)
  {
    LineSnoc(b, i, c);
    AppendAssoc(Line(b, i, c), Item(b.inner[c], i), pad);
  }

  /** An unpadded column adds only its item. */
  lemma UnpaddedStep(b: Builder, i: nat, c: nat)
    requires c < |b.inner|
    requires !(|Item(b.inner[c], i)| < b.tabsize && Pads(b, c))
    ensures Line(b, i, c) + Item(b.inner[c], i) == Line(b, i, c + 1)
  {
    LineSnoc(b, i, c);
  }

  // ---------------------------------------------------------------------
  // What the output looks like

  /** Every column but the last is padded. */
  lemma InnerColumnsPadded(b: Builder, c: nat)
    requires c < |b.inner| - 1
    ensures Pads(b, c)
  {
    PositionFirst(b.inner, b.inner[c]);
    assert b.inner[c] in b.inner;
  }

  /** The last column is padded exactly when an earlier column is equal to
      it: `position` finds the earlier one first. */
  lemma LastColumnPadded(b: Builder)
    requires |b.inner| > 0
    ensures Pads(b, |b.inner| - 1) <==> exists k :: 0 <= k < |b.inner| - 1 && b.inner[k] == b.inner[|b.inner| - 1]
  {
    var last := |b.inner| - 1;
    PositionFirst(b.inner, b.inner[last]);
    assert b.inner[last] in b.inner;
    if exists k :: 0 <= k < last && b.inner[k] == b.inner[last] {
      var k :| 0 <= k < last && b.inner[k] == b.inner[last];
      assert Position(b.inner, b.inner[last]).value <= k;
    }
  }

  /** A row without line ends in its items has none. */
  lemma {:induction false} LineNoNewline(b: Builder, i: nat, n: nat)
    requires n <= |b.inner|
    requires forall c, j :: 0 <= c < |b.inner| && 0 <= j < |b.inner[c]| ==> '\n' !in b.inner[c][j]
    ensures '\n' !in Line(b, i, n)
  {
    var cells := Cells(b, i);
    forall c | 0 <= c < n ensures '\n' !in cells[c] {
      CellNoNewline(b, c, i);
    }
    JoinNoNewline(cells, n);
  }

  lemma CellNoNewline(b: Builder, c: nat, i: nat)
    requires c < |b.inner|
    requires forall c, j :: 0 <= c < |b.inner| && 0 <= j < |b.inner[c]| ==> '\n' !in b.inner[c][j]
    ensures '\n' !in Cell(b, c, i)
  {
    CellShape(b, c, i);
    var cell, item := Cell(b, c, i), Item(b.inner[c], i);
    assert forall k :: 0 <= k < |item| ==> cell[k] == item[k];
  }

  /** Cells without line ends join into a line without one. */
  lemma {:induction false} JoinNoNewline(cells: seq<string>, n: nat)
    requires n <= |cells|
    requires forall c :: 0 <= c < n ==> '\n' !in cells[c]
    ensures '\n' !in Join(cells, n)
  {
    if n > 0 {
      JoinNoNewline(cells, n - 1);
    }
  }

  /** No printed row holds a line end when no item does. */
  lemma RowsNoNewline(b: Builder)
    requires forall c, j :: 0 <= c < |b.inner| && 0 <= j < |b.inner[c]| ==> '\n' !in b.inner[c][j]
    ensures forall k :: 0 <= k < |Rows(b)| ==> '\n' !in Rows(b)[k]
  {
    forall k | 0 <= k < |Rows(b)| ensures '\n' !in Rows(b)[k] {
      LineNoNewline(b, k, |b.inner|);
    }
  }

  /** `column_builder` prints exactly `largest` lines, each one of the rows
      followed by '\n', when no item contains a line end. */
  lemma OutputLines(b: Builder)
    requires forall c, j :: 0 <= c < |b.inner| && 0 <= j < |b.inner[c]| ==> '\n' !in b.inner[c][j]
    ensures SplitOn(Output(b), '\n') == Rows(b) + [""]
    ensures Count(Output(b), '\n') == b.largest
  {
    RowsNoNewline(b);
    SplitTerminated(Rows(b), '\n');
  }

  /** The output ends with a line end unless there are no rows. */
  lemma OutputEnds(b: Builder)
    requires b.largest > 0
    ensures |Output(b)| > 0 && Output(b)[|Output(b)| - 1] == '\n'
  {
  }

  /** With tab width 0 nothing is padded: a row is its items run together. */
  function Joined(b: Builder, i: nat, n: nat): string
    requires n <= |b.inner|
  {
    if n == 0 then "" else Joined(b, i, n - 1) + Item(b.inner[n - 1], i)
  }

  lemma {:induction false} TabZeroJoins(b: Builder, i: nat, n: nat)
    requires b.tabsize == 0 && n <= |b.inner|
    ensures Line(b, i, n) == Joined(b, i, n)
  {
    if n > 0 {
      TabZeroJoins(b, i, n - 1);
    }
  }

  /** A shorter prefix of a row is a prefix of a longer one. */
  lemma {:induction false} LinePrefix(b: Builder, i: nat, n: nat, m: nat)
    requires n <= m <= |b.inner|
    ensures Line(b, i, n) <= Line(b, i, m)
    decreases m
  {
    JoinPrefix(Cells(b, i), n, m);
  }

  lemma {:induction false} JoinPrefix(cells: seq<string>, n: nat, m: nat)
    requires n <= m <= |cells|
    ensures Join(cells, n) <= Join(cells, m)
    decreases m
  {
    if n < m {
      JoinPrefix(cells, n, m - 1);
      PrefixExtend(Join(cells, n), Join(cells, m - 1), cells[m - 1]);
    }
  }

  /** One more column appended to a row. */
  lemma LineSnoc(b: Builder, i: nat, n: nat)
    requires n < |b.inner|
    ensures Line(b, i, n + 1) == Line(b, i, n) + Cell(b, n, i)
  {
  }

  /** A prefix stays a prefix when more text follows. */
  lemma PrefixExtend(short: string, mid: string, more: string)
    requires short <= mid
    ensures short <= mid + more
  {
    assert (mid + more)[..|short|] == mid[..|short|];
  }

  /** `c` widths laid end to end: where column `c` starts when every
      column before it is `width` wide. */
  function Offset(c: nat, width: nat): nat
  {
    if c == 0 then 0 else Offset(c - 1, width) + width
  }

  lemma {:induction false} OffsetIsProduct(c: nat, width: nat)
    ensures Offset(c, width) == c * width
  {
    if c > 0 {
      OffsetIsProduct(c - 1, width);
      assert (c - 1) * width + width == c * width;
    }
  }

  /** When every padded item is shorter than the tab width, the first `n`
      columns take exactly `n` tab widths. */
  lemma {:induction false} LineWidth(b: Builder, i: nat, n: nat)
    requires n < |b.inner|
    requires forall c :: 0 <= c < |b.inner| - 1 ==> |Item(b.inner[c], i)| < b.tabsize
    ensures |Line(b, i, n)| == Offset(n, b.tabsize)
  {
    var cells := Cells(b, i);
    forall c | 0 <= c < n ensures |cells[c]| == b.tabsize {
      CellShape(b, c, i);
      InnerColumnsPadded(b, c);
    }
    JoinWidth(cells, n, b.tabsize);
  }

  /** Cells of one width `width` join into `n` widths. */
  lemma {:induction false} JoinWidth(cells: seq<string>, n: nat, width: nat)
    requires n <= |cells|
    requires forall c :: 0 <= c < n ==> |cells[c]| == width
    ensures |Join(cells, n)| == Offset(n, width)
  {
    if n > 0 {
      JoinWidth(cells, n - 1, width);
    }
  }

  /** Column `c`'s item starts where the first `c` columns end. */
  lemma ItemAfterLine(b: Builder, i: nat, c: nat)
    requires c < |b.inner|
    ensures var head, item := Line(b, i, c), Item(b.inner[c], i);
            |head| + |item| <= |Line(b, i, c + 1)| && Line(b, i, c + 1)[|head|..|head| + |item|] == item
  {
    CellShape(b, c, i);
    var head, cell, item := Line(b, i, c), Cell(b, c, i), Item(b.inner[c], i);
    assert (head + cell)[|head|..|head| + |item|] == cell[..|item|];
  }

  /** A slice inside a prefix of a row is a slice of the row. */
  lemma SliceOfPrefix(row: string, front: string, x: nat, y: nat)
    requires front <= row && x <= y <= |front|
    ensures row[x..y] == front[x..y]
  {
    assert forall k :: x <= k < y ==> row[k] == row[..|front|][k];
  }

  /** Columns line up: when every item outside the last column is shorter
      than the tab width, column `c`'s item starts `c` tab widths into the
      row, on every row. */
  lemma ColumnStart(b: Builder, i: nat, c: nat)
    requires c < |b.inner|
    requires forall k :: 0 <= k < |b.inner| - 1 ==> |Item(b.inner[k], i)| < b.tabsize
    ensures var row, item := Row(b, i), Item(b.inner[c], i);
            var start := Offset(c, b.tabsize);
            start + |item| <= |row| && row[start..start + |item|] == item
  {
    LineWidth(b, i, c);
    ItemInRow(b, i, c);
  }

  /** Column `c`'s item sits in the row right after the first `c` cells. */
  lemma ItemInRow(b: Builder, i: nat, c: nat)
    requires c < |b.inner|
    ensures var row, item, start := Row(b, i), Item(b.inner[c], i), |Line(b, i, c)|;
            start + |item| <= |row| && row[start..start + |item|] == item
  {
    var item := Item(b.inner[c], i);
    LinePrefix(b, i, c + 1, |b.inner|);
    ItemAfterLine(b, i, c);
    var start := |Line(b, i, c)|;
    SliceOfPrefix(Row(b, i), Line(b, i, c + 1), start, start + |item|);
  }

  /** For a layout from `from`, every item is at least three shorter than
      the tab width, so every row lines up. */
  lemma LayoutAligned(f: seq<seq<string>>, i: nat, c: nat)
    requires c < |f|
    ensures var b := Layout(f);
            var row, item := Row(b, i), Item(f[c], i);
            var start := Offset(c, b.tabsize);
            start + |item| <= |row| && row[start..start + |item|] == item
    ensures Offset(c, Layout(f).tabsize) == c * Layout(f).tabsize
  {
    ColumnStart(Layout(f), i, c);
    OffsetIsProduct(c, Layout(f).tabsize);
  }
}
