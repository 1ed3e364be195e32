/** The command-line argument registry and parser of `src/args/mod.rs`.
    Arguments are registered under every alias they have, in a context
    (the id of their parent argument, 0 at the top level); parsing walks the
    command line once, collects the values each recognised argument asks
    for and records them under the key that matched. */
module Args {
  import opened Strings

  /** A registry key, printed by the source as "{ctx}#{name}". The context
      is a decimal number and holds no '#', so the text determines both
      parts and the pair stands for it. */
  datatype Key = Key(ctx: nat, name: string)

  /** One registered argument: its aliases, how many values it takes, its
      help text, its parent's id if it is a sub-argument, and its own id. */
  datatype Argument = Argument(matches: seq<string>, numbers: nat, help: string, subArg: Option<nat>, id: nat)

  /** `Argument::new`. */
  function NewArgument(): Argument
  {
    Argument([], 0, "", None, 0)
  }

  predicate Distinct(s: seq<string>)
  {
    forall i, j :: 0 <= i < j < |s| ==> s[i] != s[j]
  }

  /** `alias`: adds a name unless it is already there. */
  function Alias(a: Argument, name: string): (r: Argument)
    ensures name in r.matches
    ensures r.matches == if name in a.matches then a.matches else a.matches + [name]
    ensures r.numbers == a.numbers && r.help == a.help && r.subArg == a.subArg && r.id == a.id
  {
    if name in a.matches then a else a.(matches := a.matches + [name])
  }

  /** `count`: sets the number of values the argument takes. */
  function CountValues(a: Argument, numbers: nat): (r: Argument)
    ensures r.numbers == numbers
    ensures r.matches == a.matches && r.help == a.help && r.subArg == a.subArg && r.id == a.id
  {
    a.(numbers := numbers)
  }

  /** `help`: sets the help text. */
  function Help(a: Argument, help: string): (r: Argument)
    ensures r.help == help
    ensures r.matches == a.matches && r.numbers == a.numbers && r.subArg == a.subArg && r.id == a.id
  {
    a.(help := help)
  }

  /** Aliases never repeat, and adding one twice is adding it once. */
  lemma AliasKeepsDistinct(a: Argument, name: string)
    requires Distinct(a.matches)
    ensures Distinct(Alias(a, name).matches)
    ensures Alias(Alias(a, name), name) == Alias(a, name)
  {
  }

  /** The context an argument is registered in (`unwrap_or(0)`). */
  function Context(a: Argument): nat
  {
    match a.subArg
    case Some(parent) => parent
    case None => 0
  }

  /** The registry after storing `a` under each of `names`, in order. */
  function Register(stored: map<Key, Argument>, a: Argument, names: seq<string>): map<Key, Argument>
    decreases |names|
  {
    if names == [] then stored
    else Register(stored, a, names[..|names| - 1])[Key(Context(a), names[|names| - 1]) := a]
  }

  /** After registering, exactly the old keys and `a`'s new keys are
      present; the new keys hold `a` and every other key is unchanged. */
  lemma {:induction false} RegisterShape(stored: map<Key, Argument>, a: Argument, names: seq<string>)
    ensures var r := Register(stored, a, names);
            (forall k :: k in r <==> k in stored || (k.ctx == Context(a) && k.name in names)) &&
            (forall k :: k in r && k.ctx == Context(a) && k.name in names ==> r[k] == a) &&
            (forall k :: k in stored && !(k.ctx == Context(a) && k.name in names) ==> r[k] == stored[k])
    decreases |names|
  {
    if names != [] {
      var init := names[..|names| - 1];
      assert forall n :: n in names <==> n in init || n == names[|names| - 1];
      RegisterShape(stored, a, init);
    }
  }

  /** What the registry always satisfies: ids are between 1 and the last
      one handed out, every key is one of its argument's aliases in its
      argument's context, and every alias of a stored argument has a key. */
  ghost predicate WellFormed(stored: map<Key, Argument>, lastId: nat)
  {
    (forall k :: k in stored ==> 1 <= stored[k].id <= lastId) &&
    (forall k :: k in stored ==> k.ctx == Context(stored[k]) && k.name in stored[k].matches) &&
    (forall k, n :: k in stored && n in stored[k].matches ==> Key(k.ctx, n) in stored)
  }

  /** Registering a new argument under all of its aliases keeps the
      registry well formed. */
  lemma RegisterWellFormed(stored: map<Key, Argument>, lastId: nat, a: Argument)
    requires WellFormed(stored, lastId) && a.id == lastId + 1
    ensures WellFormed(Register(stored, a, a.matches), a.id)
  {
    var r := Register(stored, a, a.matches);
    RegisterShape(stored, a, a.matches);
    forall k, n | k in r && n in r[k].matches ensures Key(k.ctx, n) in r {
      if !(k.ctx == Context(a) && k.name in a.matches) {
        assert Key(k.ctx, n) in stored;
      }
    }
  }

  /** The registry: arguments by key, aliases in registration order, and
      the last id handed out. */
  class Args {
    var stored: map<Key, Argument>
    var order: seq<string>
    var lastId: nat

    ghost predicate Valid()
      reads this
    {
      WellFormed(stored, lastId)
    }

    /** `Args::new`, without the program name it reads from the system. */
    constructor()
      ensures stored == map[] && order == [] && lastId == 0
      ensures Valid()
    {
      stored := map[];
      order := [];
      lastId := 0;
    }

    /** `generate_id`: the next id. */
    method GenerateId() returns (id: nat)
      modifies this
      ensures lastId == old(lastId) + 1 && id == lastId
      ensures stored == old(stored) && order == old(order)
    {
      lastId := lastId + 1;
      id := lastId;
    }

    /** `add_to_map`: gives the argument a fresh id, stores it under every
      alias in its context, and appends the aliases to `order`. */
    method AddToMap(argument: Argument) returns (id: nat)
      requires Valid()
      modifies this
      ensures id == old(lastId) + 1 && lastId == id
      ensures forall k :: k in old(stored) ==> old(stored)[k].id < id
      ensures stored == Register(old(stored), argument.(id := id), argument.matches)
      ensures order == old(order) + argument.matches
      ensures Valid()
    {
      id := GenerateId();
      var a := argument.(id := id);
      var matches := a.matches;
      for j := 0 to |matches|
        invariant stored == Register(old(stored), a, matches[..j])
        invariant order == old(order) + matches[..j]
        invariant lastId == id
      {
        assert matches[..j + 1][..j] == matches[..j];
        var subArg := if a.subArg.Some? then a.subArg.value else 0;
        stored := stored[Key(subArg, matches[j]) := a];
        order := order + [matches[j]];
      }
      assert matches[..|matches|] == matches;
      RegisterWellFormed(old(stored), old(lastId), a);
    }

    /** `add`: a top-level argument with one alias. */
    method Add(name: string, numValues: nat, helpMessage: string) returns (id: nat)
      requires Valid()
      modifies this
      ensures id == old(lastId) + 1 && lastId == id
      ensures Key(0, name) in stored && stored[Key(0, name)] == Argument([name], numValues, helpMessage, None, id)
      ensures forall k :: k in old(stored) && k != Key(0, name) ==> k in stored && stored[k] == old(stored)[k]
      ensures order == old(order) + [name]
      ensures Valid()
    {
      var argument := Help(CountValues(Alias(NewArgument(), name), numValues), helpMessage);
      id := AddToMap(argument);
      RegisterShape(old(stored), argument.(id := id), [name]);
    }

    /** `add_arg`. */
    method AddArg(argument: Argument) returns (id: nat)
      requires Valid()
      modifies this
      ensures id == old(lastId) + 1 && lastId == id
      ensures stored == Register(old(stored), argument.(id := id), argument.matches)
      ensures order == old(order) + argument.matches
      ensures Valid()
    {
      id := AddToMap(argument);
    }

    /** `parse` on an explicit command line. */
    method Parse(args: seq<string>) returns (r: Outcome)
      ensures r == Scan(stored, args, 0, 0, map[])
    {
      var st := stored;
      var hm: map<Key, seq<string>> := map[];
      var ctx := 0;
      for index := 0 to |args|
        invariant Scan(st, args, 0, 0, map[]) == Scan(st, args, index, ctx, hm)
      {
        var arg := args[index];
        if arg == "--help" || arg == "-h" {
          return HelpExit;
        }
        var query := Key(ctx, arg);
        var query2 := Key(0, arg);
        if query in st {
          var argument := st[query];
          ctx := argument.id;
          var values := CollectPlain(args, index, argument.numbers);
          if |values| < argument.numbers {
            return Failed(MissingValues(FirstName(argument), argument.numbers, |values|));
          }
          hm := hm[query := values];
        } else if query2 in st {
          var argument := st[query2];
          ctx := argument.id;
          var values := CollectFree(args, index, argument.numbers, st, ctx);
          if |values| < argument.numbers {
            return Failed(MissingValues(FirstName(argument), argument.numbers, |values|));
          }
          hm := hm[query2 := values];
        } else if exists t :: t in st.Values && arg in t.matches {
          return Failed(SubArgRequired(arg));
        }
      }
      r := Parsed(ParsedArgs(hm));
    }
  }

  // ---------------------------------------------------------------------
  // Parsing

  /** What a successful parse returns: values by the key that matched. */
  datatype ParsedArgs = ParsedArgs(hm: map<Key, seq<string>>)

  /** `ParsedArgs::get`: looks only at the top-level key of `name`. */
  function Get(p: ParsedArgs, name: string): (r: Option<seq<string>>)
    ensures r.Some? <==> Key(0, name) in p.hm
    ensures r.Some? ==> r.value == p.hm[Key(0, name)]
  {
    if Key(0, name) in p.hm then Some(p.hm[Key(0, name)]) else None
  }

  /** `ParsedArgs::has`. */
  function Has(p: ParsedArgs, name: string): (r: bool)
    ensures r <==> Get(p, name).Some?
  {
    Key(0, name) in p.hm
  }

  datatype ParseError =
    | MissingValues(argument: string, numbers: nat, count: nat)
    | SubArgRequired(arg: string)

  /** A parse either succeeds, fails, or stops at `--help`/`-h`, where the
      source prints the help text and exits. */
  datatype Outcome = Parsed(args: ParsedArgs) | Failed(error: ParseError) | HelpExit

  /** The name an error message shows: the first alias. */
  function FirstName(a: Argument): string
  {
    if a.matches == [] then "" else a.matches[0]
  }

  /** What ends the collection of values: an argument starting with '-'
      (first branch), or one registered in the current context or at the
      top level (second branch). */
  datatype Stop = AtDash | AtRegistered(stored: map<Key, Argument>, ctx: nat)

  predicate Stops(stop: Stop, s: string)
  {
    match stop
    case AtDash => |s| > 0 && s[0] == '-'
    case AtRegistered(stored, ctx) => Key(ctx, s) in stored || Key(0, s) in stored
  }

  /** The values an argument collects from what follows it: up to `n`
      arguments, up to the end of the line or the first one that stops. */
  function Take(rest: seq<string>, n: nat, stop: Stop): seq<string>
    decreases n
  {
    if n == 0 || rest == [] || Stops(stop, rest[0]) then []
    else [rest[0]] + Take(rest[1..], n - 1, stop)
  }

  /** The values taken are the first ones that follow, at most `n`, none of
      them stopping; fewer than `n` only at the end or at a stopping one. */
  lemma {:induction false} TakeShape(rest: seq<string>, n: nat, stop: Stop)
    ensures var r := Take(rest, n, stop);
            |r| <= n && |r| <= |rest| && r == rest[..|r|] &&
            (forall j :: 0 <= j < |r| ==> !Stops(stop, r[j])) &&
            (|r| < n ==> |r| == |rest| || Stops(stop, rest[|r|]))
    decreases n
  {
    if !(n == 0 || rest == [] || Stops(stop, rest[0])) {
      TakeShape(rest[1..], n - 1, stop);
      var t := Take(rest[1..], n - 1, stop);
      assert rest[1..][..|t|] == rest[1..|t| + 1];
    }
  }

  /** One step of `Take` from position `i` of the command line. */
  lemma TakeStep(args: seq<string>, i: nat, n: nat, stop: Stop)
    requires i < |args|
    ensures Take(args[i..], n, stop) ==
            if n == 0 || Stops(stop, args[i]) then [] else [args[i]] + Take(args[i + 1..], n - 1, stop)
  {
    assert args[i..][0] == args[i] && args[i..][1..] == args[i + 1..];
  }

  /** The whole parse from position `index` on, in context `ctx`, with the
      values recorded so far in `hm`. */
  function Scan(stored: map<Key, Argument>, args: seq<string>, index: nat, ctx: nat,
                hm: map<Key, seq<string>>): Outcome
    requires index <= |args|
    decreases |args| - index
  {
    if index == |args| then Parsed(ParsedArgs(hm))
    else
      var arg := args[index];
      if arg == "--help" || arg == "-h" then HelpExit
      else if Key(ctx, arg) in stored then
        var a := stored[Key(ctx, arg)];
        var values := Take(args[index + 1..], a.numbers, AtDash);
        if |values| < a.numbers then Failed(MissingValues(FirstName(a), a.numbers, |values|))
        else Scan(stored, args, index + 1, a.id, hm[Key(ctx, arg) := values])
      else if Key(0, arg) in stored then
        var a := stored[Key(0, arg)];
        var values := Take(args[index + 1..], a.numbers, AtRegistered(stored, a.id));
        if |values| < a.numbers then Failed(MissingValues(FirstName(a), a.numbers, |values|))
        else Scan(stored, args, index + 1, a.id, hm[Key(0, arg) := values])
      else if exists t :: t in stored.Values && arg in t.matches then Failed(SubArgRequired(arg))
      else Scan(stored, args, index + 1, ctx, hm)
  }

  /** The first branch's loop: values until `n`, the end, or a '-'. */
  method CollectPlain(args: seq<string>, index: nat, n: nat) returns (values: seq<string>)
    requires index < |args|
    ensures values == Take(args[index + 1..], n, AtDash)
  {
    var i := index;
    var count := 0;
    values := [];
    while count < n
      invariant i == index + count && i < |args|
      invariant count <= n && |values| == count
      invariant Take(args[index + 1..], n, AtDash) == values + Take(args[i + 1..], n - count, AtDash)
      decreases n - count
    {
      i := i + 1;
      if i >= |args| {
        assert args[i..] == [];
        return;
      }
      TakeStep(args, i, n - count, AtDash);
      if |args[i]| > 0 && args[i][0] == '-' {
        break;
      }
      values := values + [args[i]];
      count := count + 1;
    }
  }

  /** The second branch's loop: values until `n`, the end, or an argument
      registered in the new context or at the top level. */
  method CollectFree(args: seq<string>, index: nat, n: nat, stored: map<Key, Argument>, ctx: nat)
    returns (values: seq<string>)
    requires index < |args|
    ensures values == Take(args[index + 1..], n, AtRegistered(stored, ctx))
  {
    var stop := AtRegistered(stored, ctx);
    var i := index;
    var count := 0;
    values := [];
    while i < index + n
      invariant i == index + count && i < |args| && count <= n && |values| == count
      invariant Take(args[index + 1..], n, stop) == values + Take(args[i + 1..], n - count, stop)
    {
      i := i + 1;
      if i == |args| {
        assert args[i..] == [];
        return;
      }
      TakeStep(args, i, n - count, stop);
      var value := args[i];
      if Key(ctx, value) in stored || Key(0, value) in stored {
        break;
      } else {
        values := values + [value];
        count := count + 1;
      }
    }
  }
}

module ArgsParse {
  import opened Strings
  import opened Args

  /** Every recorded key is registered, holds exactly as many values as its
      argument asks for, and all of them come from the command line. */
  ghost predicate Recorded(stored: map<Key, Argument>, args: seq<string>, hm: map<Key, seq<string>>)
  {
    forall k :: k in hm ==> k in stored && |hm[k]| == stored[k].numbers && forall v :: v in hm[k] ==> v in args
  }

  /** A successful parse records only registered keys, each with all the
      values its argument asks for; a missing-values error reports fewer
      values than were asked for. */
  lemma {:induction false} ScanRecords(stored: map<Key, Argument>, args: seq<string>, index: nat, ctx: nat,
                                       hm: map<Key, seq<string>>)
    requires index <= |args| && Recorded(stored, args, hm)
    ensures var r := Scan(stored, args, index, ctx, hm);
            (r.Parsed? ==> Recorded(stored, args, r.args.hm)) &&
            (r.Failed? && r.error.MissingValues? ==> r.error.count < r.error.numbers)
    decreases |args| - index
  {
    if index < |args| {
      var arg := args[index];
      if arg == "--help" || arg == "-h" {
      } else if Key(ctx, arg) in stored {
        var a := stored[Key(ctx, arg)];
        Taken(stored, args, index, hm, Key(ctx, arg), AtDash);
        if |Take(args[index + 1..], a.numbers, AtDash)| >= a.numbers {
          ScanRecords(stored, args, index + 1, a.id, hm[Key(ctx, arg) := Take(args[index + 1..], a.numbers, AtDash)]);
        }
      } else if Key(0, arg) in stored {
        var a := stored[Key(0, arg)];
        var stop := AtRegistered(stored, a.id);
        Taken(stored, args, index, hm, Key(0, arg), stop);
        if |Take(args[index + 1..], a.numbers, stop)| >= a.numbers {
          ScanRecords(stored, args, index + 1, a.id, hm[Key(0, arg) := Take(args[index + 1..], a.numbers, stop)]);
        }
      } else if !exists t :: t in stored.Values && arg in t.matches {
        ScanRecords(stored, args, index + 1, ctx, hm);
      }
    }
  }

  /** Recording the values taken for a registered key keeps `Recorded`
      when there are enough of them. */
  lemma Taken(stored: map<Key, Argument>, args: seq<string>, index: nat, hm: map<Key, seq<string>>,
              key: Key, stop: Stop)
    requires index < |args| && Recorded(stored, args, hm) && key in stored
    ensures var values := Take(args[index + 1..], stored[key].numbers, stop);
            |values| <= stored[key].numbers &&
            (|values| >= stored[key].numbers ==> Recorded(stored, args, hm[key := values]))
  {
    var values := Take(args[index + 1..], stored[key].numbers, stop);
    TakeShape(args[index + 1..], stored[key].numbers, stop);
    assert forall v :: v in values ==> v in args[index + 1..];
  }

  /** A successful parse answers `get` and `has` only for top-level keys
      that are registered, with as many values as the argument takes. */
  lemma ParsedGet(stored: map<Key, Argument>, args: seq<string>, name: string)
    requires Scan(stored, args, 0, 0, map[]).Parsed?
    ensures var p := Scan(stored, args, 0, 0, map[]).args;
            Has(p, name) ==> Key(0, name) in stored && |Get(p, name).value| == stored[Key(0, name)].numbers
  {
    ScanRecords(stored, args, 0, 0, map[]);
  }

  /** An argument that is neither help nor an alias of anything. */
  predicate Unknown(stored: map<Key, Argument>, arg: string)
  {
    arg != "--help" && arg != "-h" && forall t :: t in stored.Values ==> arg !in t.matches
  }

  /** Unregistered arguments are skipped: with none but those left, the
      parse ends with what it has recorded. */
  lemma {:induction false} UnknownIgnored(stored: map<Key, Argument>, lastId: nat, args: seq<string>, index: nat,
                                          ctx: nat, hm: map<Key, seq<string>>)
    requires WellFormed(stored, lastId) && index <= |args|
    requires forall j :: index <= j < |args| ==> Unknown(stored, args[j])
    ensures Scan(stored, args, index, ctx, hm) == Parsed(ParsedArgs(hm))
    decreases |args| - index
  {
    if index < |args| {
      var arg := args[index];
      assert Unknown(stored, arg);
      forall k | k in stored ensures k.name != arg {
        assert stored[k] in stored.Values;
      }
      UnknownIgnored(stored, lastId, args, index + 1, ctx, hm);
    }
  }

  /** The third branch of `parse` finds some stored argument that has the
      command-line word as an alias; in a well-formed registry with no
      top-level key for the word, every such argument is a sub-argument,
      so whichever one is found, the parse fails. */
  lemma OnlySubArguments(stored: map<Key, Argument>, lastId: nat, arg: string, t: Argument)
    requires WellFormed(stored, lastId) && Key(0, arg) !in stored
    requires t in stored.Values && arg in t.matches
    ensures t.subArg.Some? && t.subArg.value != 0
  {
    var k :| k in stored && stored[k] == t;
    assert Key(k.ctx, arg) in stored;
  }
}

/** A registry holding one argument with two aliases, as the `--config`
    argument `src/main.rs` registers. */
module ArgsExamples {
  import opened Strings
  import opened Args
  import opened ArgsParse

  function Config(): Argument
  {
    Argument(["--config", "-c"], 1, "", None, 1)
  }

  /** The registry holds the argument under both aliases and nothing else. */
  lemma ConfigRegistry(stored: map<Key, Argument>)
    requires stored == Register(map[], Config(), Config().matches)
    ensures WellFormed(stored, 1)
    ensures Key(0, "-c") in stored && stored[Key(0, "-c")] == Config()
    ensures forall t :: t in stored.Values ==> t == Config()
  {
    RegisterWellFormed(map[], 0, Config());
    RegisterShape(map[], Config(), Config().matches);
  }

  /** Parsing `-c x` records the value under the alias that was typed:
      `get("-c")` finds it and `get("--config")` does not. */
  lemma LookupByTypedAlias(stored: map<Key, Argument>, args: seq<string>)
    requires stored == Register(map[], Config(), Config().matches)
    requires args == ["-c", "x"]
    ensures Scan(stored, args, 0, 0, map[]) == Parsed(ParsedArgs(map[Key(0, "-c") := ["x"]]))
    ensures Get(Scan(stored, args, 0, 0, map[]).args, "-c") == Some(["x"])
    ensures !Has(Scan(stored, args, 0, 0, map[]).args, "--config")
  {
    ConfigRegistry(stored);
    assert Take(args[1..], 1, AtDash) == ["x"] by {
      assert args[1..] == ["x"];
    }
    assert Unknown(stored, "x");
    UnknownIgnored(stored, 1, args, 1, 1, map[Key(0, "-c") := ["x"]]);
  }
}
