/** The string primitives of the Rust standard library that the tool relies on
    (`find`, `rfind`, `trim`, `trim_matches`, `replace(pat, "")`, `split`,
    `lines`, case mapping), stated over `seq<char>`. Indices count characters,
    not UTF-8 bytes; case mapping covers ASCII letters only. */
module Strings {

  datatype Option<T> = None | Some(value: T)

  datatype Result<T, E> = Ok(value: T) | Err(error: E)

  /** `char::is_whitespace`: the Unicode White_Space property. */
  predicate IsWhitespace(c: char)
  {
    c == ' ' || c == '\t' || c == '\n' || c == '\r' || c == '\U{000B}' || c == '\U{000C}'
    || c == '\U{0085}' || c == '\U{00A0}' || c == '\U{1680}'
    || ('\U{2000}' <= c <= '\U{200A}')
    || c == '\U{2028}' || c == '\U{2029}' || c == '\U{202F}' || c == '\U{205F}' || c == '\U{3000}'
  }

  /** `pat` occurs in `s` starting at index `i`. */
  predicate OccursAt(s: string, pat: string, i: nat)
  {
    i + |pat| <= |s| && s[i..i + |pat|] == pat
  }

  /** `str::find` with a string pattern: the first index at which `pat` occurs. */
  function Find(s: string, pat: string): (r: Option<nat>)
    ensures r.Some? ==> OccursAt(s, pat, r.value)
    ensures r.Some? ==> forall j :: 0 <= j < r.value ==> !OccursAt(s, pat, j)
    ensures r.None? ==> forall j :: 0 <= j <= |s| ==> !OccursAt(s, pat, j)
  {
    FindFrom(s, pat, 0)
  }

  /** The first occurrence of `pat` in `s` at index `i` or later. */
  function FindFrom(s: string, pat: string, i: nat): (r: Option<nat>)
    requires i <= |s|
    ensures r.Some? ==> i <= r.value && OccursAt(s, pat, r.value)
    ensures r.Some? ==> forall j :: i <= j < r.value ==> !OccursAt(s, pat, j)
    ensures r.None? ==> forall j :: i <= j <= |s| ==> !OccursAt(s, pat, j)
    decreases |s| - i
  {
    if OccursAt(s, pat, i) then Some(i)
    else if i == |s| then None
    else FindFrom(s, pat, i + 1)
  }

  /** `str::rfind` with a character pattern: the last index holding `c`. */
  function RFindChar(s: string, c: char): (r: Option<nat>)
    ensures r.Some? ==> r.value < |s| && s[r.value] == c
    ensures r.Some? ==> forall j :: r.value < j < |s| ==> s[j] != c
    ensures r.None? ==> c !in s
  {
    if |s| == 0 then None
    else if s[|s| - 1] == c then Some(|s| - 1)
    else RFindChar(s[..|s| - 1], c)
  }

  /** `str::trim_start`. */
  function TrimStart(s: string): (r: string)
    ensures |r| <= |s| && r == s[|s| - |r|..]
    ensures forall i :: 0 <= i < |s| - |r| ==> IsWhitespace(s[i])
    ensures r == [] || !IsWhitespace(r[0])
  {
    if |s| > 0 && IsWhitespace(s[0]) then TrimStart(s[1..]) else s
  }

  /** `str::trim_end`. */
  function TrimEnd(s: string): (r: string)
    ensures |r| <= |s| && r == s[..|r|]
    ensures forall i :: |r| <= i < |s| ==> IsWhitespace(s[i])
    ensures r == [] || !IsWhitespace(r[|r| - 1])
  {
    if |s| > 0 && IsWhitespace(s[|s| - 1]) then TrimEnd(s[..|s| - 1]) else s
  }

  /** `str::trim`: drops leading and trailing whitespace. */
  function Trim(s: string): (r: string)
    ensures |r| <= |s|
    ensures r == [] || (!IsWhitespace(r[0]) && !IsWhitespace(r[|r| - 1]))
    ensures forall i :: 0 <= i < |r| ==> r[i] in s
    ensures (forall i :: 0 <= i < |s| ==> IsWhitespace(s[i])) ==> r == []
  {
    TrimEnd(TrimStart(s))
  }

  /** `trim_start_matches(c).trim_end_matches(c)` for one character `c`. */
  function TrimChar(s: string, c: char): (r: string)
    ensures |r| <= |s|
    ensures r == [] || (r[0] != c && r[|r| - 1] != c)
    ensures forall i :: 0 <= i < |r| ==> r[i] in s
  {
    if |s| > 0 && s[0] == c then TrimChar(s[1..], c)
    else if |s| > 0 && s[|s| - 1] == c then TrimChar(s[..|s| - 1], c)
    else s
  }

  /** `str::replace(pat, "")`: scans left to right and deletes every
      non-overlapping occurrence of `pat`. */
  function RemoveAll(s: string, pat: string): (r: string)
    requires |pat| > 0
    ensures |r| <= |s|
    decreases |s|
  {
    if |s| < |pat| then s
    else if s[..|pat|] == pat then RemoveAll(s[|pat|..], pat)
    else [s[0]] + RemoveAll(s[1..], pat)
  }

  /** `str::split(c)`: the pieces between the occurrences of `c`; the empty
      string gives one empty piece. */
  function SplitOn(s: string, c: char): (r: seq<string>)
    ensures |r| >= 1
    decreases |s|
  {
    match Find(s, [c])
    case None => [s]
    case Some(i) => [s[..i]] + SplitOn(s[i + 1..], c)
  }

  /** `slice::join` with a one-character separator. */
  function JoinWith(parts: seq<string>, c: char): string
  {
    if |parts| == 0 then []
    else if |parts| == 1 then parts[0]
    else parts[0] + [c] + JoinWith(parts[1..], c)
  }

  /** Number of occurrences of `c` in `s`. */
  function Count(s: string, c: char): nat
  {
    if |s| == 0 then 0 else (if s[0] == c then 1 else 0) + Count(s[1..], c)
  }

  /** `str::lines`: splits at "\n", drops one '\r' right before each "\n",
      and yields no empty line after a final "\n". */
  function Lines(s: string): seq<string>
    decreases |s|
  {
    if |s| == 0 then []
    else match Find(s, "\n")
      case None => [s]
      case Some(i) => [DropCarriageReturn(s[..i])] + Lines(s[i + 1..])
  }

  function DropCarriageReturn(line: string): string
  {
    if |line| > 0 && line[|line| - 1] == '\r' then line[..|line| - 1] else line
  }

  /** `str::to_uppercase`, restricted to ASCII letters. */
  function Upper(s: string): (r: string)
    ensures |r| == |s|
  {
    seq(|s|, i requires 0 <= i < |s| => if 'a' <= s[i] <= 'z' then (s[i] as int - 32) as char else s[i])
  }

  /** `str::to_lowercase`, restricted to ASCII letters. */
  function Lower(s: string): (r: string)
    ensures |r| == |s|
  {
    seq(|s|, i requires 0 <= i < |s| => if 'A' <= s[i] <= 'Z' then (s[i] as int + 32) as char else s[i])
  }

  /** A string of `n` spaces. */
  function Spaces(n: nat): (r: string)
    ensures |r| == n && forall i :: 0 <= i < n ==> r[i] == ' '
  {
    seq(n, _ => ' ')
  }

  /** `OccursAt` checked character by character from index `k` of the
      pattern on; unlike the slice form it unfolds on concrete strings. */
  predicate MatchesAt(s: string, pat: string, j: nat, k: nat)
    decreases |pat| - k
  {
    if k >= |pat| then j + |pat| <= |s|
    else j + k < |s| && s[j + k] == pat[k] && MatchesAt(s, pat, j, k + 1)
  }

  /** Regrouping a three-part concatenation. */
  lemma AppendAssoc<T>(x: seq<T>, y: seq<T>, z: seq<T>)
    ensures (x + y) + z == x + (y + z)
  {
  }

  /** `pat` occurs at none of the indices `j` up to and excluding `i`. */
  predicate NoMatchBetween(s: string, pat: string, j: nat, i: nat)
    decreases i - j
  {
    j >= i || (!MatchesAt(s, pat, j, 0) && NoMatchBetween(s, pat, j + 1, i))
  }

  // ---------------------------------------------------------------------
  // Lemmas

  lemma {:induction false} MatchesAtOccurs(s: string, pat: string, j: nat, k: nat)
    requires k <= |pat|
    ensures MatchesAt(s, pat, j, k) <==> (j + |pat| <= |s| && s[j + k..j + |pat|] == pat[k..])
    decreases |pat| - k
  {
    if k < |pat| {
      MatchesAtOccurs(s, pat, j, k + 1);
      if j + |pat| <= |s| {
        assert s[j + k..j + |pat|] == [s[j + k]] + s[j + k + 1..j + |pat|];
        assert pat[k..] == [pat[k]] + pat[k + 1..];
      }
    }
  }

  lemma {:induction false} NoMatchBetweenNone(s: string, pat: string, j: nat, i: nat)
    requires NoMatchBetween(s, pat, j, i)
    ensures forall m :: j <= m < i ==> !OccursAt(s, pat, m)
    decreases i - j
  {
    if j < i {
      MatchesAtOccurs(s, pat, j, 0);
      NoMatchBetweenNone(s, pat, j + 1, i);
    }
  }

  /** A concrete search: the first occurrence is at `i`. */
  lemma FindAt(s: string, pat: string, i: nat)
    requires MatchesAt(s, pat, i, 0) && NoMatchBetween(s, pat, 0, i)
    ensures Find(s, pat) == Some(i)
  {
    MatchesAtOccurs(s, pat, i, 0);
    NoMatchBetweenNone(s, pat, 0, i);
    FindIs(s, pat, i);
  }

  /** A concrete search: there is no occurrence. */
  lemma FindNone(s: string, pat: string)
    requires NoMatchBetween(s, pat, 0, |s| + 1)
    ensures Find(s, pat) == None
  {
    NoMatchBetweenNone(s, pat, 0, |s| + 1);
  }

  /** A pattern that does not occur is found nowhere, and `RemoveAll` leaves
      the string unchanged. */
  lemma {:induction false} RemoveAllAbsent(s: string, pat: string)
    requires |pat| > 0
    requires pat[0] !in s
    ensures RemoveAll(s, pat) == s
    decreases |s|
  {
    if |s| >= |pat| {
      assert s[..|pat|][0] == s[0];
      RemoveAllAbsent(s[1..], pat);
    }
  }

  /** Where `pat` does not start, the first character is kept. */
  lemma RemoveAllKeep(s: string, pat: string)
    requires |pat| > 0 && |s| >= |pat| && s[..|pat|] != pat
    ensures RemoveAll(s, pat) == [s[0]] + RemoveAll(s[1..], pat)
  {
  }

  /** The characters of `s` other than `c`, in order. */
  function DropChar(s: string, c: char): string
    decreases |s|
  {
    if s == [] then [] else (if s[0] == c then [] else [s[0]]) + DropChar(s[1..], c)
  }

  /** Deleting a one-character pattern keeps every other character, in
      order, and leaves no occurrence of it. */
  lemma {:induction false} RemoveAllChar(s: string, c: char)
    ensures RemoveAll(s, [c]) == DropChar(s, c)
    ensures c !in RemoveAll(s, [c])
    ensures |RemoveAll(s, [c])| == |s| - Count(s, c)
    ensures multiset(RemoveAll(s, [c])) == multiset(s)[c := 0]
    decreases |s|
  {
    if |s| >= 1 {
      RemoveAllChar(s[1..], c);
      assert s == [s[0]] + s[1..];
      if s[..1] == [c] {
        assert s[0] == c;
      } else {
        assert s[0] != c;
      }
    }
  }

  /** `split` then `join` gives back the input. */
  lemma {:induction false} JoinSplit(s: string, c: char)
    ensures JoinWith(SplitOn(s, c), c) == s
    decreases |s|
  {
    match Find(s, [c])
    case None =>
    case Some(i) =>
      JoinSplit(s[i + 1..], c);
      assert s[i] == c by { assert s[i..i + 1] == [c]; }
      assert s == s[..i] + [c] + s[i + 1..];
  }

  /** No piece of a split contains the separator, and there is one piece more
      than there are separators. */
  lemma {:induction false} SplitPieces(s: string, c: char)
    ensures forall k :: 0 <= k < |SplitOn(s, c)| ==> c !in SplitOn(s, c)[k]
    ensures |SplitOn(s, c)| == Count(s, c) + 1
    decreases |s|
  {
    match Find(s, [c])
    case None =>
      NoOccurrenceNoChar(s, c);
      CountAbsent(s, c);
    case Some(i) =>
      SplitPieces(s[i + 1..], c);
      FoundChar(s, c, i);
      assert s == s[..i] + ([c] + s[i + 1..]);
      CountAppend(s[..i], [c] + s[i + 1..], c);
      CountAppend([c], s[i + 1..], c);
      CountAbsent(s[..i], c);
      assert SplitOn(s, c) == [s[..i]] + SplitOn(s[i + 1..], c);
  }

  /** A character absent from the input is absent from every piece. */
  lemma {:induction false} SplitAbsent(s: string, c: char, d: char)
    requires d !in s
    ensures forall k :: 0 <= k < |SplitOn(s, c)| ==> d !in SplitOn(s, c)[k]
    decreases |s|
  {
    match Find(s, [c])
    case None =>
    case Some(i) =>
      FoundChar(s, c, i);
      assert forall x :: x in s[..i] ==> x in s;
      assert forall x :: x in s[i + 1..] ==> x in s;
      SplitAbsent(s[i + 1..], c, d);
  }

  /** Splitting at the first separator. */
  lemma SplitOnCons(a: string, b: string, c: char)
    requires c !in a
    ensures SplitOn(a + [c] + b, c) == [a] + SplitOn(b, c)
  {
    var s := a + [c] + b;
    FindCharIs(s, c, |a|);
    assert s[..|a|] == a && s[|a| + 1..] == b;
  }

  /** Joining one more piece adds the separator and the piece. */
  lemma {:induction false} JoinSnoc(parts: seq<string>, last: string, c: char)
    requires |parts| >= 1
    ensures JoinWith(parts + [last], c) == JoinWith(parts, c) + [c] + last
    decreases |parts|
  {
    if |parts| > 1 {
      assert (parts + [last])[1..] == parts[1..] + [last];
      JoinSnoc(parts[1..], last, c);
    }
  }

  /** The pieces of `xs`, each followed by `c`. */
  function Terminated(xs: seq<string>, c: char): string
    decreases |xs|
  {
    if xs == [] then [] else Terminated(xs[..|xs| - 1], c) + xs[|xs| - 1] + [c]
  }

  lemma {:induction false} JoinTerminated(xs: seq<string>, last: string, c: char)
    ensures JoinWith(xs + [last], c) == Terminated(xs, c) + last
    decreases |xs|
  {
    if xs != [] {
      var init := xs[..|xs| - 1];
      JoinTerminated(init, xs[|xs| - 1], c);
      assert init + [xs[|xs| - 1]] == xs;
      JoinSnoc(xs, last, c);
    } else {
      assert xs + [last] == [last];
    }
  }

  /** Splitting pieces that each end in the separator gives them back,
      followed by one empty piece; there is one separator per piece. */
  lemma SplitTerminated(xs: seq<string>, c: char)
    requires forall k :: 0 <= k < |xs| ==> c !in xs[k]
    ensures SplitOn(Terminated(xs, c), c) == xs + [""]
    ensures Count(Terminated(xs, c), c) == |xs|
  {
    JoinTerminated(xs, "", c);
    assert Terminated(xs, c) + "" == Terminated(xs, c);
    SplitJoin(xs + [""], c);
    SplitPieces(Terminated(xs, c), c);
  }

  /** Splitting a join of separator-free pieces gives back the pieces. */
  lemma {:induction false} SplitJoin(parts: seq<string>, c: char)
    requires |parts| >= 1
    requires forall k :: 0 <= k < |parts| ==> c !in parts[k]
    ensures SplitOn(JoinWith(parts, c), c) == parts
    decreases |parts|
  {
    if |parts| == 1 {
      NoCharNoOccurrence(parts[0], c);
    } else {
      var s := JoinWith(parts, c);
      var p := parts[0];
      assert s == p + [c] + JoinWith(parts[1..], c);
      assert OccursAt(s, [c], |p|) by { assert s[|p|..|p| + 1] == [c]; }
      forall j | 0 <= j < |p| ensures !OccursAt(s, [c], j) {
        assert s[j] == p[j];
        assert s[j..j + 1] == [s[j]];
      }
      assert Find(s, [c]) == Some(|p|);
      assert s[|p| + 1..] == JoinWith(parts[1..], c);
      assert s[..|p|] == p;
      SplitJoin(parts[1..], c);
    }
  }

  /** What `Find(s, [c]) == Some(i)` says about the characters of `s`. */
  lemma FoundChar(s: string, c: char, i: nat)
    requires Find(s, [c]) == Some(i)
    ensures i < |s| && s[i] == c && c !in s[..i]
  {
    assert s[i..i + 1] == [c];
    forall j | 0 <= j < i ensures s[j] != c {
      assert !OccursAt(s, [c], j);
      assert s[j..j + 1] == [s[j]];
    }
    assert forall j :: 0 <= j < i ==> s[..i][j] == s[j];
  }

  /** `Find` returns the first occurrence, so an occurrence with none before
      it is what `Find` returns. */
  lemma FindIs(s: string, pat: string, i: nat)
    requires OccursAt(s, pat, i)
    requires forall j :: 0 <= j < i ==> !OccursAt(s, pat, j)
    ensures Find(s, pat) == Some(i)
  {
    var r := Find(s, pat);
    assert r.Some?;
    assert !(r.value < i);
    assert !(i < r.value);
  }

  /** The character-pattern form of `FindIs`. */
  lemma FindCharIs(s: string, c: char, i: nat)
    requires i < |s| && s[i] == c && c !in s[..i]
    ensures Find(s, [c]) == Some(i)
  {
    assert s[i..i + 1] == [c];
    forall j | 0 <= j < i ensures !OccursAt(s, [c], j) {
      assert s[..i][j] == s[j];
      assert s[j..j + 1] == [s[j]];
    }
    FindIs(s, [c], i);
  }

  /** One differing character rules out an occurrence. */
  lemma Mismatch(s: string, pat: string, j: nat, k: nat)
    requires k < |pat| && j + k < |s| && s[j + k] != pat[k]
    ensures !OccursAt(s, pat, j)
  {
    if j + |pat| <= |s| {
      assert s[j..j + |pat|][k] == s[j + k];
    }
  }

  lemma {:induction false} NoOccurrenceNoChar(s: string, c: char)
    requires forall j :: 0 <= j <= |s| ==> !OccursAt(s, [c], j)
    ensures c !in s
  {
    forall j | 0 <= j < |s| ensures s[j] != c {
      assert !OccursAt(s, [c], j);
      assert s[j..j + 1] == [s[j]];
    }
  }

  lemma {:induction false} NoCharNoOccurrence(s: string, c: char)
    requires c !in s
    ensures Find(s, [c]).None?
  {
    forall j | 0 <= j <= |s| ensures !OccursAt(s, [c], j) {
      if j < |s| {
        assert s[j..j + 1] == [s[j]];
      }
    }
  }

  lemma {:induction false} CountAbsent(s: string, c: char)
    requires c !in s
    ensures Count(s, c) == 0
    decreases |s|
  {
    if |s| > 0 {
      CountAbsent(s[1..], c);
    }
  }

  lemma {:induction false} CountAppend(a: string, b: string, c: char)
    ensures Count(a + b, c) == Count(a, c) + Count(b, c)
    decreases |a|
  {
    if |a| > 0 {
      assert (a + b)[0] == a[0];
      assert (a + b)[1..] == a[1..] + b;
      CountAppend(a[1..], b, c);
    } else {
      assert a + b == b;
    }
  }

  /** `lines` takes the text up to the first "\n" as one line. */
  lemma LinesCons(a: string, b: string)
    requires '\n' !in a
    ensures Lines(a + "\n" + b) == [DropCarriageReturn(a)] + Lines(b)
  {
    var s := a + "\n" + b;
    assert s[..|a|] == a;
    FindCharIs(s, '\n', |a|);
    assert s[|a| + 1..] == b;
  }

  /** A last line without "\n" is yielded as it is. */
  lemma LinesLast(a: string)
    requires a != [] && '\n' !in a
    ensures Lines(a) == [a]
  {
    NoCharNoOccurrence(a, '\n');
  }

  /** No line that `lines` yields contains a "\n". */
  lemma {:induction false} LinesNoNewline(s: string)
    ensures forall k :: 0 <= k < |Lines(s)| ==> '\n' !in Lines(s)[k]
    decreases |s|
  {
    if |s| > 0 {
      match Find(s, "\n")
      case None =>
        NoOccurrenceNoChar(s, '\n');
      case Some(i) =>
        FoundChar(s, '\n', i);
        LinesNoNewline(s[i + 1..]);
        assert Lines(s) == [DropCarriageReturn(s[..i])] + Lines(s[i + 1..]);
    }
  }
}
