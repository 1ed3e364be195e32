/** The template engine of `src/variable/creator.rs`: the token list of one
    template, replayed by two folds — substitution from a symbol table and
    case forcing of the placeholders' own text. */
module Creator {
  import opened Strings
  import opened Iterator

  /** Rust's `u8`. */
  newtype U8 = x: int | 0 <= x < 256

  /** What `process_variables` appends for one token: a literal verbatim, a
      placeholder as the table's entry for its upper-cased name, or nothing
      when the name is not in the table (the source prints a diagnostic). */
  function SubstitutePiece(token: Token, vars: map<string, string>): string
  {
    match token
    case Literal(s) => s
    case Placeholder(name) => if Upper(name) in vars then vars[Upper(name)] else []
  }

  /** The text `process_variables` builds from a token list. */
  function Substitute(tokens: seq<Token>, vars: map<string, string>): string
  {
    if tokens == [] then []
    else Substitute(tokens[..|tokens| - 1], vars) + SubstitutePiece(tokens[|tokens| - 1], vars)
  }

  /** What `process_case` appends for one token: a literal verbatim, a
      placeholder's own name upper-cased (mode 0), lower-cased (mode 1), or
      nothing for any other mode (the source prints a diagnostic). */
  function CasePiece(token: Token, mode: U8): string
  {
    match token
    case Literal(s) => s
    case Placeholder(name) => if mode == 0 then Upper(name) else if mode == 1 then Lower(name) else []
  }

  /** The text `process_case` builds from a token list. */
  function FoldCase(tokens: seq<Token>, mode: U8): string
  {
    if tokens == [] then []
    else FoldCase(tokens[..|tokens| - 1], mode) + CasePiece(tokens[|tokens| - 1], mode)
  }

  /** The literal text of a token list, placeholders left out. */
  function Literals(tokens: seq<Token>): string
  {
    if tokens == [] then []
    else Literals(tokens[..|tokens| - 1]) + (match tokens[|tokens| - 1] case Literal(s) => s case Placeholder(_) => [])
  }

  predicate NoPlaceholder(tokens: seq<Token>)
  {
    forall k :: 0 <= k < |tokens| ==> tokens[k].Literal?
  }

  class Creator {
    const tokens: seq<Token>

    /** `Creator::init`: collects every token the lexer yields for the text. */
    constructor Init(text: string, start: string, end: string)
      requires end != [] && Safe(text, Default, start, end)
      ensures tokens == Tokens(text, Default, start, end)
    {
      var it := new VariableIterator(text, start, end);
      ghost var all := it.Remaining();
      var collected: seq<Token> := [];
      var done := false;
      while !done
        invariant it.Valid()
        invariant !done ==> collected + it.Remaining() == all
        invariant done ==> collected == all
        decreases if done then 0 else 1 + |it.Remaining()|
      {
        var next := it.Next();
        match next {
          case None => done := true;
          case Some(token) => collected := collected + [token];
        }
      }
      tokens := collected;
    }

    /** `process_variables`: always `Some`, holding the substituted text. */
    method ProcessVariables(vars: map<string, string>) returns (r: Option<string>)
      ensures r == Some(Substitute(tokens, vars))
    {
      var result: string := [];
      for k := 0 to |tokens|
        invariant result == Substitute(tokens[..k], vars)
      {
        assert tokens[..k + 1][..k] == tokens[..k];
        match tokens[k] {
          case Literal(s) => result := result + s;
          case Placeholder(name) =>
            var key := Upper(name);
            if key in vars {
              result := result + vars[key];
            }
        }
      }
      assert tokens[..|tokens|] == tokens;
      return Some(result);
    }

    /** `process_case`: always `Some`, holding the case-forced text. */
    method ProcessCase(mode: U8) returns (r: Option<string>)
      ensures r == Some(FoldCase(tokens, mode))
    {
      var result: string := [];
      for k := 0 to |tokens|
        invariant result == FoldCase(tokens[..k], mode)
      {
        assert tokens[..k + 1][..k] == tokens[..k];
        match tokens[k] {
          case Literal(s) => result := result + s;
          case Placeholder(name) =>
            if mode == 0 {
              result := result + Upper(name);
            } else if mode == 1 {
              result := result + Lower(name);
            }
        }
      }
      assert tokens[..|tokens|] == tokens;
      return Some(result);
    }
  }

  // ---------------------------------------------------------------------
  // Lemmas

  /** One token more adds its piece at the end of either fold. */
  lemma FoldSnoc(tokens: seq<Token>, token: Token, vars: map<string, string>, mode: U8)
    ensures Substitute(tokens + [token], vars) == Substitute(tokens, vars) + SubstitutePiece(token, vars)
    ensures FoldCase(tokens + [token], mode) == FoldCase(tokens, mode) + CasePiece(token, mode)
  {
    assert (tokens + [token])[..|tokens|] == tokens;
  }

  /** Substitution works token by token: the text for a concatenation of
      token lists is the concatenation of their texts. */
  lemma {:induction false} SubstituteAppend(a: seq<Token>, b: seq<Token>, vars: map<string, string>)
    ensures Substitute(a + b, vars) == Substitute(a, vars) + Substitute(b, vars)
    decreases |b|
  {
    if b == [] {
      assert a + b == a;
    } else {
      var b', last := b[..|b| - 1], b[|b| - 1];
      assert Substitute(a + b, vars) == Substitute(a + b', vars) + SubstitutePiece(last, vars) by {
        assert a + b == (a + b') + [last];
        FoldSnoc(a + b', last, vars, 0);
      }
      assert Substitute(b, vars) == Substitute(b', vars) + SubstitutePiece(last, vars) by {
        assert b == b' + [last];
        FoldSnoc(b', last, vars, 0);
      }
      SubstituteAppend(a, b', vars);
      AppendAssoc(Substitute(a, vars), Substitute(b', vars), SubstitutePiece(last, vars));
    }
  }

  /** Case forcing works token by token as well. */
  lemma {:induction false} FoldCaseAppend(a: seq<Token>, b: seq<Token>, mode: U8)
    ensures FoldCase(a + b, mode) == FoldCase(a, mode) + FoldCase(b, mode)
    decreases |b|
  {
    if b == [] {
      assert a + b == a;
    } else {
      var b', last := b[..|b| - 1], b[|b| - 1];
      assert FoldCase(a + b, mode) == FoldCase(a + b', mode) + CasePiece(last, mode) by {
        assert a + b == (a + b') + [last];
        FoldSnoc(a + b', last, map[], mode);
      }
      assert FoldCase(b, mode) == FoldCase(b', mode) + CasePiece(last, mode) by {
        assert b == b' + [last];
        FoldSnoc(b', last, map[], mode);
      }
      FoldCaseAppend(a, b', mode);
      AppendAssoc(FoldCase(a, mode), FoldCase(b', mode), CasePiece(last, mode));
    }
  }

  /** Without placeholders both folds give back the literal text, whatever
      the table or the mode. */
  lemma {:induction false} NoPlaceholderVerbatim(tokens: seq<Token>, vars: map<string, string>, mode: U8)
    requires NoPlaceholder(tokens)
    ensures Substitute(tokens, vars) == Literals(tokens)
    ensures FoldCase(tokens, mode) == Literals(tokens)
    decreases |tokens|
  {
    if tokens != [] {
      NoPlaceholderVerbatim(tokens[..|tokens| - 1], vars, mode);
    }
  }

  /** A template without the start marker comes out of either fold unchanged. */
  lemma NoMarkerUnchanged(text: string, start: string, end: string, vars: map<string, string>, mode: U8)
    requires end != [] && Find(text, start).None?
    ensures Safe(text, Default, start, end)
    ensures Substitute(Tokens(text, Default, start, end), vars) == text
    ensures FoldCase(Tokens(text, Default, start, end), mode) == text
  {
    if text != [] {
      NoMarkerOneLiteral(text, start, end);
      assert [Literal(text)][..0] == [];
    }
  }

  /** When the lexer yields no placeholder, its literals put back together
      are the whole template: either there is no start marker, or one start
      marker with no end marker after it, which gives the text before the
      marker and the dangling rest as two literals. */
  lemma NoVariableLiterals(text: string, start: string, end: string)
    requires end != [] && Safe(text, Default, start, end)
    requires NoPlaceholder(Tokens(text, Default, start, end))
    ensures Literals(Tokens(text, Default, start, end)) == text
  {
    if text != [] {
      RunCons(text, Default, start, end);
      DefaultStep(text, start, end);
      if Find(text, start).Some? {
        var i := Find(text, start).value;
        MarkerInside(text, start, i);
        var front, rest := text[..i], text[i..];
        var tail := Tokens(rest, Variable, start, end);
        assert Tokens(text, Default, start, end) == [Literal(front)] + tail;
        NoPlaceholderTail(Literal(front), tail);
        DanglingRest(rest, start, end);
        TwoLiterals(front, rest);
        assert front + rest == text;
      } else {
        assert [Literal(text)][..0] == [];
      }
    }
  }

  /** From a start marker, a run without placeholders is the one dangling
      literal: an end marker would have closed a placeholder. */
  lemma DanglingRest(rest: string, start: string, end: string)
    requires rest != [] && end != [] && Safe(rest, Variable, start, end)
    requires NoPlaceholder(Tokens(rest, Variable, start, end))
    ensures Tokens(rest, Variable, start, end) == [Literal(rest)]
  {
    RunCons(rest, Variable, start, end);
    VariableStep(rest, start, end);
    assert Tokens(rest, Variable, start, end)[0].Literal?;
    assert Tokens([], Default, start, end) == [];
  }

  lemma NoPlaceholderTail(token: Token, tail: seq<Token>)
    requires NoPlaceholder([token] + tail)
    ensures NoPlaceholder(tail)
  {
    forall k | 0 <= k < |tail| ensures tail[k].Literal? {
      assert ([token] + tail)[k + 1] == tail[k];
    }
  }

  /** The first start marker of a non-empty text begins inside it. */
  lemma MarkerInside(text: string, start: string, i: nat)
    requires text != [] && Find(text, start) == Some(i)
    ensures i < |text|
  {
    if start == [] {
      assert OccursAt(text, start, 0);
    }
  }

  lemma TwoLiterals(a: string, b: string)
    ensures Literals([Literal(a), Literal(b)]) == a + b
  {
    var two := [Literal(a), Literal(b)];
    assert two[..1] == [Literal(a)] && two[..1][..0] == [];
    assert Literals(two[..1]) == [] + a;
    assert [] + a == a;
  }

  /** `Creator` over a template whose tokens hold no `Variable` gives the
      template back from both `process_variables` and `process_case`. */
  lemma NoVariableUnchanged(text: string, start: string, end: string, vars: map<string, string>, mode: U8)
    requires end != [] && Safe(text, Default, start, end)
    requires NoPlaceholder(Tokens(text, Default, start, end))
    ensures Substitute(Tokens(text, Default, start, end), vars) == text
    ensures FoldCase(Tokens(text, Default, start, end), mode) == text
  {
    NoVariableLiterals(text, start, end);
    NoPlaceholderVerbatim(Tokens(text, Default, start, end), vars, mode);
  }

  /** A placeholder is looked up by its upper-cased name, so the case in which
      the template writes it does not matter. */
  lemma PlaceholderLookup(name: string, vars: map<string, string>)
    ensures Upper(name) in vars ==> Substitute([Placeholder(name)], vars) == vars[Upper(name)]
    ensures Upper(name) !in vars ==> Substitute([Placeholder(name)], vars) == []
  {
    assert [Placeholder(name)][..0] == [];
  }

  /** Mode 0 upper-cases a placeholder's own text and mode 1 lower-cases it. */
  lemma PlaceholderCase(name: string)
    ensures FoldCase([Placeholder(name)], 0) == Upper(name)
    ensures FoldCase([Placeholder(name)], 1) == Lower(name)
  {
    assert [Placeholder(name)][..0] == [];
  }

  /** Any other mode drops every placeholder and keeps the literals in order. */
  lemma {:induction false} OtherModeKeepsLiterals(tokens: seq<Token>, mode: U8)
    requires mode > 1
    ensures FoldCase(tokens, mode) == Literals(tokens)
    decreases |tokens|
  {
    if tokens != [] {
      OtherModeKeepsLiterals(tokens[..|tokens| - 1], mode);
    }
  }
}
