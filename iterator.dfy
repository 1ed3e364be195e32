/** The placeholder lexer of `src/variable/iterator.rs`: a two-state machine
    that walks a suffix cursor over a template and yields literal runs and
    placeholder names, with arbitrary start and end marker strings. */
module Iterator {
  import opened Strings

  /** Whether the cursor sits in literal text or on a start marker. */
  datatype State = Default | Variable

  /** The items the lexer yields (`Type` in the source). */
  datatype Token = Literal(text: string) | Placeholder(name: string)

  /** The one slice that can panic: in `Variable` state the end marker must not
      be found before the end of the start marker (the slice
      `text[start.len()..index]` would be reversed). */
  predicate StepSafe(text: string, state: State, start: string, end: string)
  {
    state == Variable && Find(text, end).Some? ==> Find(text, end).value >= |start|
  }

  /** One call of `next` on a non-empty cursor: the token it yields, the new
      cursor and the new state (`parse_text` / `parse_var`). */
  function Step(text: string, state: State, start: string, end: string): (r: (Token, string, State))
    requires text != [] && end != [] && StepSafe(text, state, start, end)
    ensures |r.1| <= |text| && r.1 == text[|text| - |r.1|..]
    ensures |r.1| < |text| || (state == Default && r.2 == Variable)
  {
    match state
    case Default =>
      (match Find(text, start)
       case Some(i) => LiteralBefore(text, i)
       case None => (Literal(text), [], Default))
    case Variable =>
      (match Find(text, end)
       case Some(i) => PlaceholderBefore(text, start, end, i)
       case None => (Literal(text), [], Default))
  }

  /** `parse_text` with the start marker found at `i`: the text before it,
      and the cursor moved onto the marker. */
  function LiteralBefore(text: string, i: nat): (Token, string, State)
    requires i <= |text|
  {
    (Literal(text[..i]), text[i..], Variable)
  }

  /** `parse_var` with the end marker found at `i`: the name between the
      markers without surrounding spaces, and the cursor moved past the end
      marker. */
  function PlaceholderBefore(text: string, start: string, end: string, i: nat): (Token, string, State)
    requires |start| <= i && i + |end| <= |text|
  {
    (Placeholder(TrimChar(text[|start|..i], ' ')), text[i + |end|..], Default)
  }

  /** The whole run from a cursor never reaches the panicking slice. */
  predicate Safe(text: string, state: State, start: string, end: string)
    requires end != []
    decreases |text|, if state == Default then 1 else 0
  {
    text == [] ||
    (StepSafe(text, state, start, end) &&
     var (_, rest, next) := Step(text, state, start, end);
     Safe(rest, next, start, end))
  }

  /** Every token the iterator still yields from a cursor and a state. */
  function Tokens(text: string, state: State, start: string, end: string): seq<Token>
    requires end != [] && Safe(text, state, start, end)
    decreases |text|, if state == Default then 1 else 0
  {
    if text == [] then []
    else
      var (token, rest, next) := Step(text, state, start, end);
      [token] + Tokens(rest, next, start, end)
  }

  /** One of `a`, `b` is a prefix of the other. */
  predicate Overlaps(a: string, b: string)
  {
    a <= b || b <= a
  }

  /** No suffix of the start marker overlaps the end marker, so the end
      marker can never be found inside the start marker at the cursor. */
  predicate MarkersSafe(start: string, end: string)
  {
    forall k :: 0 <= k < |start| ==> !Overlaps(start[k..], end)
  }

  class VariableIterator {
    var text: string
    var state: State
    const start: string
    const end: string

    ghost predicate Valid()
      reads this
    {
      end != [] && Safe(text, state, start, end) && (state == Variable ==> start <= text)
    }

    /** The tokens that the remaining calls of `Next` will yield. */
    ghost function Remaining(): seq<Token>
      reads this
      requires Valid()
    {
      Tokens(text, state, start, end)
    }

    /** `VariableIterator::new`: the whole text, in `Default` state. */
    constructor (text: string, start: string, end: string)
      requires end != [] && Safe(text, Default, start, end)
      ensures Valid()
      ensures this.text == text && this.start == start && this.end == end && state == Default
      ensures Remaining() == Tokens(text, Default, start, end)
    {
      this.text := text;
      this.start := start;
      this.end := end;
      this.state := Default;
    }

    /** `parse_text`: a literal up to the next start marker, or all the rest. */
    method ParseText() returns (token: Token)
      requires Valid() && text != [] && state == Default
      modifies this
      ensures Valid()
      ensures match Find(old(text), start)
        case Some(i) => token == Literal(old(text)[..i]) && text == old(text)[i..] && state == Variable
        case None => token == Literal(old(text)) && text == [] && state == Default
      ensures |text| <= |old(text)| && text == old(text)[|old(text)| - |text|..]
      ensures [token] + Remaining() == old(Remaining())
    {
      var t := text;
      RunCons(t, Default, start, end);
      DefaultStep(t, start, end);
      var found := Find(t, start);
      var rest, next;
      if found.Some? {
        var i := found.value;
        token := Literal(t[..i]);
        rest, next := t[i..], Variable;
      } else {
        token := Literal(t);
        rest, next := [], Default;
      }
      assert Step(t, Default, start, end) == (token, rest, next);
      text, state := rest, next;
    }

    /** `parse_var`: the trimmed name up to the end marker, or, with no end
        marker, the rest including the dangling start marker as a literal. */
    method ParseVar() returns (token: Token)
      requires Valid() && text != [] && state == Variable
      modifies this
      ensures Valid() && state == Default
      ensures match Find(old(text), end)
        case Some(i) =>
          |start| <= i && token == Placeholder(TrimChar(old(text)[|start|..i], ' ')) && text == old(text)[i + |end|..]
        case None => token == Literal(old(text)) && text == []
      ensures |text| <= |old(text)| && text == old(text)[|old(text)| - |text|..]
      ensures [token] + Remaining() == old(Remaining())
    {
      var t := text;
      RunCons(t, Variable, start, end);
      VariableStep(t, start, end);
      var found := Find(t, end);
      var rest;
      if found.Some? {
        var i := found.value;
        token := Placeholder(TrimChar(t[|start|..i], ' '));
        rest := t[i + |end|..];
      } else {
        token := Literal(t);
        rest := [];
      }
      assert Step(t, Variable, start, end) == (token, rest, Default);
      text, state := rest, Default;
    }

    /** `Iterator::next`: `None` exactly when the cursor is empty; otherwise
        the first remaining token. The cursor only ever shrinks to a suffix. */
    method Next() returns (r: Option<Token>)
      requires Valid()
      modifies this
      ensures Valid()
      ensures r.None? <==> old(text) == []
      ensures r.None? ==> old(Remaining()) == [] && text == old(text) && state == old(state)
      ensures r.Some? ==> old(Remaining()) != [] && r.value == old(Remaining())[0] && Remaining() == old(Remaining())[1..]
      ensures |text| <= |old(text)| && text == old(text)[|old(text)| - |text|..]
    {
      if text == [] {
        return None;
      }
      var token;
      match state {
        case Default => token := ParseText();
        case Variable => token := ParseVar();
      }
      r := Some(token);
      ConsParts(token, Remaining(), old(Remaining()));
    }
  }

  // ---------------------------------------------------------------------
  // Lemmas

  /** A safe run from a non-empty cursor is one step and a safe run from
      where that step leaves the cursor. */
  lemma RunCons(text: string, state: State, start: string, end: string)
    requires end != [] && text != [] && Safe(text, state, start, end)
    ensures StepSafe(text, state, start, end)
    ensures var (token, rest, next) := Step(text, state, start, end);
            Safe(rest, next, start, end) && Tokens(text, state, start, end) == [token] + Tokens(rest, next, start, end)
  {
  }

  /** The step from `Default` state, by whether a start marker is found. */
  lemma DefaultStep(text: string, start: string, end: string)
    requires text != [] && end != []
    ensures match Find(text, start)
      case Some(i) => Step(text, Default, start, end) == LiteralBefore(text, i)
      case None => Step(text, Default, start, end) == (Literal(text), [], Default)
  {
  }

  /** The step from `Variable` state, by whether an end marker is found. */
  lemma VariableStep(text: string, start: string, end: string)
    requires text != [] && end != [] && StepSafe(text, Variable, start, end)
    ensures match Find(text, end)
      case Some(i) => |start| <= i && i + |end| <= |text| && Step(text, Variable, start, end) == PlaceholderBefore(text, start, end, i)
      case None => Step(text, Variable, start, end) == (Literal(text), [], Default)
  {
  }

  lemma ConsParts(token: Token, rest: seq<Token>, all: seq<Token>)
    requires [token] + rest == all
    ensures all != [] && all[0] == token && all[1..] == rest
  {
    assert all[1..] == ([token] + rest)[1..];
  }

  /** With markers that cannot overlap, no run ever panics. */
  lemma {:induction false} MarkersSafeRun(text: string, state: State, start: string, end: string)
    requires end != [] && MarkersSafe(start, end)
    requires state == Variable ==> start <= text
    ensures Safe(text, state, start, end)
    decreases |text|, if state == Default then 1 else 0
  {
    if text != [] {
      if state == Variable {
        NoEarlyEnd(text, start, end);
      }
      assert StepSafe(text, state, start, end);
      var (_, rest, next) := Step(text, state, start, end);
      if state == Default && Find(text, start).Some? {
        var i := Find(text, start).value;
        assert rest == text[i..];
        assert start <= rest;
      }
      MarkersSafeRun(rest, next, start, end);
    }
  }

  /** At a cursor that begins with the start marker, safe markers keep the
      end marker from being found before the start marker is over. */
  lemma NoEarlyEnd(text: string, start: string, end: string)
    requires start <= text && MarkersSafe(start, end)
    ensures forall i :: 0 <= i < |start| ==> !OccursAt(text, end, i)
  {
    forall i | 0 <= i < |start| ensures !OccursAt(text, end, i) {
      EarlyEndOverlaps(text, start, end, i);
    }
  }

  lemma EarlyEndOverlaps(text: string, start: string, end: string, i: nat)
    requires start <= text && i < |start|
    ensures OccursAt(text, end, i) ==> Overlaps(start[i..], end)
  {
    if OccursAt(text, end, i) {
      if i + |end| <= |start| {
        assert end == start[i..i + |end|];
        assert end <= start[i..];
      } else {
        assert start[i..] <= end;
      }
    }
  }

  /** Text without a start marker is one literal token holding all of it. */
  lemma NoMarkerOneLiteral(text: string, start: string, end: string)
    requires end != [] && text != [] && Find(text, start).None?
    ensures Safe(text, Default, start, end)
    ensures Tokens(text, Default, start, end) == [Literal(text)]
  {
  }
}
