/** Worked examples of the template pipeline: the lexer and the two folds on
    the inputs that `src/variable` and `src/main.rs` are built around. */
module TemplateExamples {
  import opened Strings
  import opened Iterator
  import opened Creator

  lemma S1()
    ensures Step("Hello {NAME}!", Default, "{", "}") == (Literal("Hello "), "{NAME}!", Variable)
  {
    var t := "Hello {NAME}!";
    FindCharIs(t, '{', 6);
    assert t[..6] == "Hello " && t[6..] == "{NAME}!";
  }
  lemma S2()
    ensures StepSafe("{NAME}!", Variable, "{", "}")
    ensures Step("{NAME}!", Variable, "{", "}") == (Placeholder("NAME"), "!", Default)
  {
    var u := "{NAME}!";
    assert u == "{" + "NAME" + "}" + "!";
    FindCharIs(u, '}', 5);
    MarkedStep("{", "NAME", "}", "!");
    assert TrimChar("NAME", ' ') == "NAME";
  }
  lemma S3()
    ensures Step("!", Default, "{", "}") == (Literal("!"), "", Default)
  {
    NoCharNoOccurrence("!", '{');
  }
  lemma HelloExample()
    ensures Safe("Hello {NAME}!", Default, "{", "}")
    ensures Tokens("Hello {NAME}!", Default, "{", "}") == [Literal("Hello "), Placeholder("NAME"), Literal("!")]
  {
    S1(); S2(); S3();
  }
  lemma HelloSubstitution()
    ensures Substitute([Literal("Hello "), Placeholder("NAME"), Literal("!")], map["NAME" := "World"]) == "Hello World!"
  {
    var vars := map["NAME" := "World"];
    assert Upper("NAME") == "NAME";
    AroundPlaceholder("Hello ", "NAME", "!", vars);
  }

  /** A placeholder between two literals: the literals stay, the placeholder
      becomes its piece. */
  lemma AroundPlaceholder(a: string, name: string, b: string, vars: map<string, string>)
    ensures Substitute([Literal(a), Placeholder(name), Literal(b)], vars)
         == a + SubstitutePiece(Placeholder(name), vars) + b
  {
    var ts := [Literal(a), Placeholder(name), Literal(b)];
    assert ts[..2][..1] == [Literal(a)];
    assert ts[..2] == [Literal(a), Placeholder(name)];
    assert [Literal(a)][..0] == [];
    assert Substitute(ts[..2][..1], vars) == a;
    assert Substitute(ts[..2], vars) == a + SubstitutePiece(Placeholder(name), vars);
  }

  /** `"foo {BAR"`: the literal before the start marker, then the dangling
      marker and the rest as a second literal — two tokens, no error. */
  lemma DanglingSteps()
    ensures Step("foo {BAR", Default, "{", "}") == (Literal("foo "), "{BAR", Variable)
    ensures StepSafe("{BAR", Variable, "{", "}")
    ensures Step("{BAR", Variable, "{", "}") == (Literal("{BAR"), "", Default)
  {
    var t := "foo {BAR";
    FindCharIs(t, '{', 4);
    assert t[..4] == "foo " && t[4..] == "{BAR";
    NoCharNoOccurrence("{BAR", '}');
  }

  lemma DanglingExample()
    ensures Safe("foo {BAR", Default, "{", "}")
    ensures Tokens("foo {BAR", Default, "{", "}") == [Literal("foo "), Literal("{BAR")]
    ensures Substitute(Tokens("foo {BAR", Default, "{", "}"), map[]) == "foo {BAR"
  {
    DanglingTokens();
    DanglingSubstitution();
  }

  lemma DanglingTokens()
    ensures Safe("foo {BAR", Default, "{", "}")
    ensures Tokens("foo {BAR", Default, "{", "}") == [Literal("foo "), Literal("{BAR")]
  {
    DanglingSteps();
    assert Tokens("{BAR", Variable, "{", "}") == [Literal("{BAR")];
  }

  lemma DanglingSubstitution()
    ensures Substitute([Literal("foo "), Literal("{BAR")], map[]) == "foo {BAR"
  {
    var ts := [Literal("foo "), Literal("{BAR")];
    assert ts[..1] == [Literal("foo ")];
    assert [Literal("foo ")][..0] == [];
  }

  /** An unknown placeholder contributes nothing; the literals around it stay. */
  lemma UnknownPlaceholderExample()
    ensures Substitute([Literal("Hello "), Placeholder("NAME"), Literal("!")], map[]) == "Hello !"
  {
    AroundPlaceholder("Hello ", "NAME", "!", map[]);
  }

  lemma U1()
    ensures Step("[U]Loud[/U] and [L]Quiet[/L]", Default, "[U]", "[/U]")
         == (Literal(""), "[U]Loud[/U] and [L]Quiet[/L]", Variable)
  {
    FindAt("[U]Loud[/U] and [L]Quiet[/L]", "[U]", 0);
  }

  lemma U2()
    ensures StepSafe("[U]Loud[/U] and [L]Quiet[/L]", Variable, "[U]", "[/U]")
    ensures Step("[U]Loud[/U] and [L]Quiet[/L]", Variable, "[U]", "[/U]")
         == (Placeholder("Loud"), " and [L]Quiet[/L]", Default)
  {
    U2At("[U]Loud[/U] and [L]Quiet[/L]");
  }

  lemma U2At(t: string)
    requires t == "[U]Loud[/U] and [L]Quiet[/L]"
    ensures StepSafe(t, Variable, "[U]", "[/U]")
    ensures Step(t, Variable, "[U]", "[/U]") == (Placeholder("Loud"), " and [L]Quiet[/L]", Default)
  {
    assert t == "[U]" + "Loud" + "[/U]" + " and [L]Quiet[/L]";
    U2Find(t);
    MarkedStep("[U]", "Loud", "[/U]", " and [L]Quiet[/L]");
    assert TrimChar("Loud", ' ') == "Loud";
  }

  /** A placeholder whose end marker is the first one in the text. */
  lemma MarkedStep(start: string, name: string, end: string, rest: string)
    requires end != [] && Find(start + name + end + rest, end) == Some(|start| + |name|)
    ensures StepSafe(start + name + end + rest, Variable, start, end)
    ensures Step(start + name + end + rest, Variable, start, end) == (Placeholder(TrimChar(name, ' ')), rest, Default)
  {
    var a := start + name;
    var t := a + end + rest;
    AppendAssoc(a, end, rest);
    assert t[..|a|] == a;
    assert t[|start|..|a|] == a[|start|..] == name;
    assert t[|a| + |end|..] == rest;
    VariableStep(t, start, end);
  }

  lemma U2Find(t: string)
    requires t == "[U]Loud[/U] and [L]Quiet[/L]"
    ensures Find(t, "[/U]") == Some(7)
  {
    FindAt(t, "[/U]", 7);
  }

  lemma U3()
    ensures Step(" and [L]Quiet[/L]", Default, "[U]", "[/U]") == (Literal(" and [L]Quiet[/L]"), "", Default)
  {
    var r := " and [L]Quiet[/L]";
    assert NoMatchBetween(r, "[U]", 12, 18);
    assert NoMatchBetween(r, "[U]", 6, 18);
    assert NoMatchBetween(r, "[U]", 0, 18);
    FindNone(r, "[U]");
  }

  lemma L1(t: string)
    requires t == "LOUD and [L]Quiet[/L]"
    ensures Step(t, Default, "[L]", "[/L]") == (Literal("LOUD and "), "[L]Quiet[/L]", Variable)
  {
    L1Find(t);
    assert t[..9] == "LOUD and ";
    assert t[9..] == "[L]Quiet[/L]";
  }

  lemma L1Find(t: string)
    requires t == "LOUD and [L]Quiet[/L]"
    ensures Find(t, "[L]") == Some(9)
  {
    assert NoMatchBetween(t, "[L]", 5, 9);
    assert NoMatchBetween(t, "[L]", 0, 9);
    FindAt(t, "[L]", 9);
  }

  lemma L2()
    ensures StepSafe("[L]Quiet[/L]", Variable, "[L]", "[/L]")
    ensures Step("[L]Quiet[/L]", Variable, "[L]", "[/L]") == (Placeholder("Quiet"), "", Default)
  {
    var r := "[L]Quiet[/L]";
    FindAt(r, "[/L]", 8);
    assert r[3..8] == [r[3], r[4], r[5], r[6], r[7]];
    assert TrimChar("Quiet", ' ') == "Quiet";
  }

  lemma UpperTokens()
    ensures Safe("[U]Loud[/U] and [L]Quiet[/L]", Default, "[U]", "[/U]")
    ensures Tokens("[U]Loud[/U] and [L]Quiet[/L]", Default, "[U]", "[/U]")
         == [Literal(""), Placeholder("Loud"), Literal(" and [L]Quiet[/L]")]
  {
    UpperTail();
    U1();
  }

  /** The run from the placeholder on: the name, then the rest as a literal. */
  lemma UpperTail()
    ensures Safe("[U]Loud[/U] and [L]Quiet[/L]", Variable, "[U]", "[/U]")
    ensures Tokens("[U]Loud[/U] and [L]Quiet[/L]", Variable, "[U]", "[/U]")
         == [Placeholder("Loud"), Literal(" and [L]Quiet[/L]")]
  {
    var r := " and [L]Quiet[/L]";
    assert Safe(r, Default, "[U]", "[/U]") && Tokens(r, Default, "[U]", "[/U]") == [Literal(r)] by {
      U3();
    }
    U2();
  }

  lemma LowerTokens()
    ensures Safe("LOUD and [L]Quiet[/L]", Default, "[L]", "[/L]")
    ensures Tokens("LOUD and [L]Quiet[/L]", Default, "[L]", "[/L]")
         == [Literal("LOUD and "), Placeholder("Quiet")]
  {
    L1("LOUD and [L]Quiet[/L]"); L2();
  }

  lemma UpperLoud()
    ensures Upper("Loud") == "LOUD"
  {
    var loud := "Loud";
    assert Upper(loud)[0] == 'L' && Upper(loud)[1] == 'O' && Upper(loud)[2] == 'U' && Upper(loud)[3] == 'D';
  }

  lemma UpperFold()
    ensures FoldCase([Literal(""), Placeholder("Loud"), Literal(" and [L]Quiet[/L]")], 0) == "LOUD and [L]Quiet[/L]"
  {
    var rest := " and [L]Quiet[/L]";
    assert FoldCase([Literal(""), Placeholder("Loud"), Literal(rest)], 0) == [] + "LOUD" + rest by {
      FoldThree(Literal(""), Placeholder("Loud"), Literal(rest), 0);
      UpperLoud();
    }
    assert [] + "LOUD" + rest == "LOUD and [L]Quiet[/L]";
  }

  /** Three tokens fold piece by piece. */
  lemma FoldThree(x: Token, y: Token, z: Token, mode: U8)
    ensures FoldCase([x, y, z], mode) == CasePiece(x, mode) + CasePiece(y, mode) + CasePiece(z, mode)
  {
    assert FoldCase([x], mode) == CasePiece(x, mode) by {
      FoldSnoc([], x, map[], mode);
      assert [] + [x] == [x];
    }
    assert FoldCase([x, y], mode) == FoldCase([x], mode) + CasePiece(y, mode) by {
      FoldSnoc([x], y, map[], mode);
      assert [x] + [y] == [x, y];
    }
    assert FoldCase([x, y, z], mode) == FoldCase([x, y], mode) + CasePiece(z, mode) by {
      FoldSnoc([x, y], z, map[], mode);
      assert [x, y] + [z] == [x, y, z];
    }
  }

  lemma LowerFold()
    ensures FoldCase([Literal("LOUD and "), Placeholder("Quiet")], 1) == "LOUD and quiet"
  {
    var us := [Literal("LOUD and "), Placeholder("Quiet")];
    assert us[..1] == [Literal("LOUD and ")];
    assert [Literal("LOUD and ")][..0] == [];
    var quiet := "Quiet";
    assert Lower(quiet) == [Lower(quiet)[0], Lower(quiet)[1], Lower(quiet)[2], Lower(quiet)[3], Lower(quiet)[4]];
  }

  lemma CaseChainExample()
    ensures Safe("[U]Loud[/U] and [L]Quiet[/L]", Default, "[U]", "[/U]")
    ensures var upper := FoldCase(Tokens("[U]Loud[/U] and [L]Quiet[/L]", Default, "[U]", "[/U]"), 0);
            Safe(upper, Default, "[L]", "[/L]") &&
            FoldCase(Tokens(upper, Default, "[L]", "[/L]"), 1) == "LOUD and quiet"
  {
    UpperTokens(); UpperFold(); LowerTokens(); LowerFold();
  }
}
