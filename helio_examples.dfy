/** Worked examples of the configuration parser of `src/config/helio/mod.rs`
    on small inputs, with the comment character '#' and the delimiter '='. */
module HelioExamples {
  import opened Strings
  import opened Hyperstr
  import opened Helio

  /** Text that starts and ends with a non-blank character trims to itself. */
  lemma TrimKeeps(s: string)
    requires s != [] && !IsWhitespace(s[0]) && !IsWhitespace(s[|s| - 1])
    ensures Trim(s) == s
  {
  }

  lemma {:induction false} TrimStartPadded(a: string, s: string)
    requires s != [] && !IsWhitespace(s[0])
    requires forall i :: 0 <= i < |a| ==> IsWhitespace(a[i])
    ensures TrimStart(a + s) == s
    decreases |a|
  {
    if a != [] {
      assert (a + s)[1..] == a[1..] + s;
      TrimStartPadded(a[1..], s);
    } else {
      assert a + s == s;
    }
  }

  lemma {:induction false} TrimEndPadded(s: string, b: string)
    requires s != [] && !IsWhitespace(s[|s| - 1])
    requires forall i :: 0 <= i < |b| ==> IsWhitespace(b[i])
    ensures TrimEnd(s + b) == s
    decreases |b|
  {
    if b != [] {
      assert (s + b)[..|s + b| - 1] == s + b[..|b| - 1];
      TrimEndPadded(s, b[..|b| - 1]);
    } else {
      assert s + b == s;
    }
  }

  /** Leading and trailing blanks are dropped. */
  lemma TrimPadded(t: string, a: string, s: string, b: string)
    requires t == a + s + b
    requires s != [] && !IsWhitespace(s[0]) && !IsWhitespace(s[|s| - 1])
    requires forall i :: 0 <= i < |a| ==> IsWhitespace(a[i])
    requires forall i :: 0 <= i < |b| ==> IsWhitespace(b[i])
    ensures Trim(t) == s
  {
    assert a + s + b == a + (s + b);
    TrimStartPadded(a, s + b);
    TrimEndPadded(s, b);
  }

  /** A line without '#' is not cut. */
  lemma NoComment(raw: string)
    requires '#' !in raw
    ensures CutComment(raw, '#') == raw
  {
    NoCharNoOccurrence(raw, '#');
  }

  lemma IndentedAt(raw: string)
    requires raw == "  x"
    ensures Classify(raw, '#', '=') == Continuation("x")
  {
    NoComment(raw);
    TrimPadded(raw, "  ", "x", "");
    HeaderTest("x");
  }

  lemma EmptyKeyAt(raw: string)
    requires raw == "= v"
    ensures Classify(raw, '#', '=') == MissingKey
  {
    NoComment(raw);
    TrimKeeps(raw);
    HeaderTest(raw);
    FindCharIs(raw, '=', 0);
    assert raw[..0] == [];
    assert Classify(raw, '#', '=') == ClassifyLine(raw, raw, '=');
  }

  lemma KeySlices()
    ensures "key = first"[..4] == "key " && "key = first"[5..] == " first"
  {
  }

  lemma KeyFind()
    ensures Find("key = first", ['=']) == Some(4)
  {
    FindCharIs("key = first", '=', 4);
  }

  lemma TrimKey()
    ensures Trim("key ") == "key"
  {
    TrimPadded("key ", "", "key", " ");
  }

  lemma TrimFirst()
    ensures Trim(" first") == "first"
  {
    TrimPadded(" first", " ", "first", "");
  }

  lemma KeyLine(raw: string)
    requires raw == "key = first"
    ensures CutComment(raw, '#') == raw && Trim(raw) == raw
    ensures Find(raw, "[") != Some(0)
  {
    NoComment(raw);
    TrimKeeps(raw);
    HeaderTest(raw);
  }

  lemma KeyFirstAt(raw: string)
    requires raw == "key = first"
    ensures Classify(raw, '#', '=') == Entry("key", Some("first"))
  {
    KeyLine(raw);
    KeySlices();
    KeyFind();
    TrimKey();
    TrimFirst();
    FoundChar(raw, '=', 4);
    KeyKindEntry(raw, '=', 4);
    assert Classify(raw, '#', '=') == ClassifyLine(raw, raw, '=');
  }

  lemma IndentedSecondAt(raw: string)
    requires raw == "  second"
    ensures Classify(raw, '#', '=') == Continuation("second")
  {
    NoComment(raw);
    TrimPadded(raw, "  ", "second", "");
    HeaderTest("second");
  }
}
