/** `to_vector` of `src/util/mth.rs`: a multi-line string as the vector of
    its `'\n'`-separated pieces. */
module Mth {
  import opened Strings

  /** `to_vector`: pushes every piece of `text.split('\n')`, in order. The
      pieces joined with `'\n'` give back the input, so nothing else is
      dropped: a `'\r'` before a line end stays at the end of its piece. */
  method ToVector(text: string) returns (vec: seq<string>)
    ensures vec == SplitOn(text, '\n')
    ensures JoinWith(vec, '\n') == text
    ensures |vec| == Count(text, '\n') + 1
    ensures forall k :: 0 <= k < |vec| ==> '\n' !in vec[k]
  {
    var pieces := SplitOn(text, '\n');
    vec := [];
    for i := 0 to |pieces|
      invariant vec == pieces[..i]
    {
      vec := vec + [pieces[i]];
    }
    assert vec == pieces;
    JoinSplit(text, '\n');
    SplitPieces(text, '\n');
  }

  /** The empty string gives one empty piece. */
  lemma EmptyGivesOnePiece()
    ensures SplitOn("", '\n') == [""]
  {
    FindNone("", "\n");
  }

  /** A Windows line end leaves its `'\r'` on the first piece. */
  lemma CarriageReturnKept()
    ensures SplitOn("a\r\nb", '\n') == ["a\r", "b"]
  {
    var s := "a\r\nb";
    assert MatchesAt(s, "\n", 2, 0);
    assert NoMatchBetween(s, "\n", 0, 2);
    FindAt(s, "\n", 2);
    assert s[..2] == "a\r" && s[3..] == "b";
    assert NoMatchBetween("b", "\n", 0, 2);
    FindNone("b", "\n");
    assert SplitOn("b", '\n') == ["b"];
    assert SplitOn(s, '\n') == [s[..2]] + SplitOn(s[3..], '\n');
  }
}
