/** The configuration format of `src/config/helio/mod.rs`: a line-oriented
    parser into sections of keys with optional values, the typed accessors
    over the parsed document, and in-place updates. */
module Helio {
  import opened Strings
  import opened Hyperstr

  /** The keys of one section; a key declared without a delimiter has no value. */
  type Section = map<string, Option<string>>

  /** Section name to section. */
  type Document = map<string, Section>

  /** The three ways `parse` fails, with the line number it reports. */
  datatype ParseError =
    | MissingClosingBracket(line: nat)
    | MissingKeyForContinuation(line: nat)
    | EmptyKey(line: nat)

  /** Why `get_str` found no value. */
  datatype LookupError = SectionNotFound | KeyNotFound | KeyHasNoValue

  /** Why a value could not be read as a boolean or an integer. */
  datatype TypeError = NotABoolean | NotAnInteger

  /** The resampling filters `get_filter` names. */
  datatype Filter = Nearest | Gaussian | Triangle | CatmullRom | Lanczos3

  /** `get_filter` found a name outside the five it knows. */
  datatype FilterError = UnknownFilter(name: string)

  /** What one physical line means, decided in the order `parse` checks. */
  datatype LineKind =
    | Blank
    | Header(name: string)
    | UnclosedHeader
    | Continuation(text: string)
    | Entry(key: string, value: Option<string>)
    | MissingKey

  /** The parser's state between lines: the document so far, the current
      section and the key a continuation line extends. */
  datatype ParseState = ParseState(doc: Document, section: string, key: Option<string>)

  /** The line up to its first comment character. */
  function CutComment(raw: string, comment: char): (r: string)
    ensures |r| <= |raw| && r == raw[..|r|]
    ensures comment !in r
    ensures |r| < |raw| ==> raw[|r|] == comment
  {
    match Find(raw, [comment])
    case Some(i) => FoundChar(raw, comment, i); raw[..i]
    case None => NoOccurrenceNoChar(raw, comment); raw
  }

  /** How `parse` reads one physical line. */
  function Classify(raw: string, comment: char, delimit: char): LineKind
  {
    var line := CutComment(raw, comment);
    var trimmed := Trim(line);
    if trimmed == [] then Blank else ClassifyLine(line, trimmed, delimit)
  }

  /** A line with text on it: a header, a continuation or a key line. */
  function ClassifyLine(line: string, trimmed: string, delimit: char): LineKind
    requires line != [] && trimmed != []
  {
    if trimmed[0] == '[' then HeaderKind(trimmed)
    else if IsWhitespace(line[0]) then Continuation(trimmed)
    else KeyKind(trimmed, delimit)
  }

  /** A line that opens with '[': the name up to the last ']', trimmed. */
  function HeaderKind(trimmed: string): (r: LineKind)
    requires trimmed != [] && trimmed[0] == '['
    ensures r.Header? || r == UnclosedHeader
  {
    match RFindChar(trimmed, ']')
    case Some(e) => Header(Trim(trimmed[1..e]))
    case None => UnclosedHeader
  }

  /** A key line: the key before the first delimiter and the value after it,
      both trimmed; without a delimiter the whole line is a key. */
  function KeyKind(trimmed: string, delimit: char): LineKind
  {
    match Find(trimmed, [delimit])
    case Some(d) => KeyAt(trimmed, d)
    case None => Entry(trimmed, None)
  }

  /** A key line cut at `d`, the position of its first delimiter. */
  function KeyAt(trimmed: string, d: nat): LineKind
    requires d < |trimmed|
  {
    var key := Trim(trimmed[..d]);
    if key == [] then MissingKey else Entry(key, Some(Trim(trimmed[d + 1..])))
  }

  /** A key as `parse` stores it: non-empty, trimmed, and free of the
      comment and delimiter characters. */
  predicate ValidKey(key: string, comment: char, delimit: char)
  {
    key != [] && !IsWhitespace(key[0]) && !IsWhitespace(key[|key| - 1])
    && comment !in key && delimit !in key
  }

  /** The section `name` of `doc`, or an empty one. */
  function SectionOf(doc: Document, name: string): Section
  {
    if name in doc then doc[name] else map[]
  }

  /** What `parse` does with one classified line numbered `num` (from 0). */
  function Apply(st: ParseState, kind: LineKind, num: nat, newline: string): Result<ParseState, ParseError>
  {
    match kind
    case Blank => Ok(st)
    case Header(name) => Ok(st.(section := name))
    case UnclosedHeader => Err(MissingClosingBracket(num + 1))
    case Continuation(text) =>
      (match st.key
       case None => Err(MissingKeyForContinuation(num))
       case Some(k) =>
         var sec := SectionOf(st.doc, st.section);
         var prev := if k in sec && sec[k].Some? then sec[k].value else [];
         Ok(st.(doc := st.doc[st.section := sec[k := Some(prev + newline + text)]])))
    case Entry(k, v) =>
      var sec := SectionOf(st.doc, st.section);
      Ok(ParseState(st.doc[st.section := sec[k := v]], st.section, Some(k)))
    case MissingKey => Err(EmptyKey(num))
  }

  /** What each line of `lines` means. */
  function Kinds(lines: seq<string>, comment: char, delimit: char): (r: seq<LineKind>)
    ensures |r| == |lines|
  {
    seq(|lines|, i requires 0 <= i < |lines| => Classify(lines[i], comment, delimit))
  }

  /** The parser run over the meanings of consecutive lines, the first of
      which is numbered `num`: the final state, or the first error. */
  function Run(kinds: seq<LineKind>, st: ParseState, num: nat, newline: string): Result<ParseState, ParseError>
    decreases |kinds|
  {
    if kinds == [] then Ok(st)
    else match Apply(st, kinds[0], num, newline)
      case Err(e) => Err(e)
      case Ok(next) => Run(kinds[1..], next, num + 1, newline)
  }

  /** The document `parse` builds from `input`, or its first error. */
  function ParseDocument(input: string, default: string, comment: char, delimit: char, newline: string): Result<Document, ParseError>
  {
    match Run(Kinds(Lines(input), comment, delimit), ParseState(map[], default, None), 0, newline)
    case Ok(st) => Ok(st.doc)
    case Err(e) => Err(e)
  }

  /** Spelling of `FromStr for bool`. */
  function BoolText(b: bool): string
  {
    if b then "true" else "false"
  }

  predicate AllDigits(s: string)
  {
    forall i :: 0 <= i < |s| ==> '0' <= s[i] <= '9'
  }

  /** The number a string of decimal digits denotes. */
  function DigitsValue(s: string): nat
    requires AllDigits(s)
  {
    if s == [] then 0 else 10 * DigitsValue(s[..|s| - 1]) + (s[|s| - 1] as int - '0' as int)
  }

  /** `FromStr for u32`: an optional '+', then one or more decimal digits
      denoting a value below 2^32. */
  function ParseU32(s: string): (r: Option<nat>)
    ensures r.Some? ==> r.value < 0x1_0000_0000
    ensures r.Some? ==> s != [] && s != "+" && (AllDigits(s) || (s[0] == '+' && AllDigits(s[1..])))
  {
    var digits := if |s| > 0 && s[0] == '+' then s[1..] else s;
    if digits == [] || !AllDigits(digits) then None
    else
      var v := DigitsValue(digits);
      if v < 0x1_0000_0000 then Some(v) else None
  }

  /** The decimal spelling of `n`, as `u32`'s `Display` writes it. */
  function Decimal(n: nat): (r: string)
    ensures r != [] && AllDigits(r)
  {
    if n < 10 then [('0' as int + n) as char]
    else Decimal(n / 10) + [('0' as int + n % 10) as char]
  }

  /** The spelling `get_filter` accepts for each filter. */
  function FilterName(f: Filter): string
  {
    match f
    case Nearest => "Nearest"
    case Gaussian => "Gaussian"
    case Triangle => "Triangle"
    case CatmullRom => "Catmull"
    case Lanczos3 => "Lanczos"
  }

  /** The five names `get_filter` knows, each read as its filter. */
  function FilterFromName(name: string): (r: Option<Filter>)
    ensures r.Some? ==> FilterName(r.value) == name
    ensures r.None? ==> forall f: Filter :: FilterName(f) != name
  {
    match name
    case "Nearest" => Some(Nearest)
    case "Gaussian" => Some(Gaussian)
    case "Triangle" => Some(Triangle)
    case "Catmull" => Some(CatmullRom)
    case "Lanczos" => Some(Lanczos3)
    case _ => None
  }

  /** What every document `parse` builds satisfies: keys as `ValidKey`
      describes, and values free of the comment character. */
  predicate WellFormed(doc: Document, comment: char, delimit: char)
  {
    forall s, k :: s in doc && k in doc[s] ==>
      ValidKey(k, comment, delimit) && (doc[s][k].Some? ==> comment !in doc[s][k].value)
  }

  /** The parser state keeps the document well formed and a valid current key. */
  predicate StateWellFormed(st: ParseState, comment: char, delimit: char)
  {
    WellFormed(st.doc, comment, delimit) && (st.key.Some? ==> ValidKey(st.key.value, comment, delimit))
  }

  class Helio {
    var sections: Document
    const default: string := "default"
    const comment: char := '#'
    const delimit: char := '='

    /** `Helio::new`: an empty document, default section "default", comment
        character '#', delimiter '='. */
    constructor ()
      ensures sections == map[] && default == "default" && comment == '#' && delimit == '='
    {
      sections := map[];
    }

    /** `parse`: reads the input line by line; the result is the document
        `ParseDocument` describes. */
    method Parse(input: string, target: Target) returns (r: Result<Document, ParseError>)
      ensures r == ParseDocument(input, default, comment, delimit, N(target))
    {
      var lines := Lines(input);
      var newline := N(target);
      ghost var start := ParseState(map[], default, None);
      ghost var kinds := Kinds(lines, comment, delimit);
      var doc: Document := map[];
      var section := default;
      var currentKey: Option<string> := None;
      var num := 0;
      while num < |lines|
        invariant num <= |lines|
        invariant Run(kinds, start, 0, newline) == Run(kinds[num..], ParseState(doc, section, currentKey), num, newline)
      {
        RunStep(kinds, num, ParseState(doc, section, currentKey), newline);
        var next := ParseLine(doc, section, currentKey, lines[num], num, newline);
        match next {
          case Err(e) => return Err(e);
          case Ok(st) =>
            doc, section, currentKey := st.doc, st.section, st.key;
        }
        num := num + 1;
      }
      return Ok(doc);
    }

    /** The body of `parse`'s loop for the line numbered `num`: the new
        document, section and current key, or the error the line raises. */
    method ParseLine(doc: Document, section: string, currentKey: Option<string>, rawLine: string, num: nat, newline: string)
      returns (r: Result<ParseState, ParseError>)
      ensures r == Apply(ParseState(doc, section, currentKey), Classify(rawLine, comment, delimit), num, newline)
    {
      var line := CutComment(rawLine, comment);
      var trimmed := Trim(line);
      if trimmed == [] {
        return Ok(ParseState(doc, section, currentKey));
      }
      r := ParseText(doc, section, currentKey, line, trimmed, num, newline);
    }

    /** A line with text on it: a header, a continuation or a key line. */
    method ParseText(doc: Document, section: string, currentKey: Option<string>, line: string, trimmed: string, num: nat, newline: string)
      returns (r: Result<ParseState, ParseError>)
      requires line != [] && trimmed != []
      ensures r == Apply(ParseState(doc, section, currentKey), ClassifyLine(line, trimmed, delimit), num, newline)
    {
      HeaderTest(trimmed);
      if Find(trimmed, "[") == Some(0) {
        assert ClassifyLine(line, trimmed, delimit) == HeaderKind(trimmed);
        var close := RFindChar(trimmed, ']');
        if close.Some? {
          var name := Trim(trimmed[1..close.value]);
          assert HeaderKind(trimmed) == Header(name);
          return Ok(ParseState(doc, name, currentKey));
        } else {
          return Err(MissingClosingBracket(num + 1));
        }
      }
      if IsWhitespace(line[0]) {
        assert ClassifyLine(line, trimmed, delimit) == Continuation(trimmed);
        if currentKey.None? {
          return Err(MissingKeyForContinuation(num));
        }
        var key := currentKey.value;
        var valueMap := SectionOf(doc, section);
        var value := if key in valueMap && valueMap[key].Some? then valueMap[key].value else [];
        value := value + newline;
        value := value + trimmed;
        return Ok(ParseState(doc[section := valueMap[key := Some(value)]], section, currentKey));
      }
      assert ClassifyLine(line, trimmed, delimit) == KeyKind(trimmed, delimit);
      r := ParseKey(doc, section, trimmed, num);
    }

    /** A key line: stores the key with its value (or none) in the current
        section and makes it the current key. */
    method ParseKey(doc: Document, section: string, trimmed: string, num: nat)
      returns (r: Result<ParseState, ParseError>)
      ensures forall currentKey: Option<string>, newline: string ::
        r == Apply(ParseState(doc, section, currentKey), KeyKind(trimmed, delimit), num, newline)
    {
      var valueMap := SectionOf(doc, section);
      var found := Find(trimmed, [delimit]);
      if found.Some? {
        var delimiter := found.value;
        var key := Trim(trimmed[..delimiter]);
        FoundChar(trimmed, delimit, delimiter);
        KeyKindEntry(trimmed, delimit, delimiter);
        if key == [] {
          return Err(EmptyKey(num));
        }
        var value := Trim(trimmed[delimiter + 1..]);
        assert KeyKind(trimmed, delimit) == Entry(key, Some(value));
        r := Ok(ParseState(doc[section := valueMap[key := Some(value)]], section, Some(key)));
        forall currentKey: Option<string>, newline: string
          ensures r == Apply(ParseState(doc, section, currentKey), Entry(key, Some(value)), num, newline)
        {
          ApplyEntry(ParseState(doc, section, currentKey), key, Some(value), num, newline);
        }
      } else {
        assert KeyKind(trimmed, delimit) == Entry(trimmed, None);
        r := Ok(ParseState(doc[section := valueMap[trimmed := None]], section, Some(trimmed)));
        forall currentKey: Option<string>, newline: string
          ensures r == Apply(ParseState(doc, section, currentKey), Entry(trimmed, None), num, newline)
        {
          ApplyEntry(ParseState(doc, section, currentKey), trimmed, None, num, newline);
        }
      }
    }

    /** `get_str`: the value with every '"' removed, or why there is none —
        a missing section first, then a missing key, then a key without a
        value. */
    function GetStr(section: string, key: string): (r: Result<string, LookupError>)
      reads this
      ensures r == Err(SectionNotFound) <==> section !in sections
      ensures r == Err(KeyNotFound) <==> section in sections && key !in sections[section]
      ensures r == Err(KeyHasNoValue) <==> section in sections && key in sections[section] && sections[section][key].None?
      ensures r.Ok? ==> section in sections && key in sections[section] && sections[section][key].Some?
      ensures r.Ok? ==> r.value == DropChar(sections[section][key].value, '"')
      ensures r.Ok? ==> multiset(r.value) == multiset(sections[section][key].value)['"' := 0]
      ensures r.Ok? ==> '"' !in r.value
      ensures r.Ok? ==> |r.value| == |sections[section][key].value| - Count(sections[section][key].value, '"')
      ensures r.Ok? && '"' !in sections[section][key].value ==> r.value == sections[section][key].value
    {
      if section !in sections then Err(SectionNotFound)
      else if key !in sections[section] then Err(KeyNotFound)
      else match sections[section][key]
        case None => Err(KeyHasNoValue)
        case Some(z) =>
          RemoveAllChar(z, '"');
          if '"' !in z then RemoveAllAbsent(z, "\""); Ok(RemoveAll(z, "\""))
          else Ok(RemoveAll(z, "\""))
    }

    /** `get_bool`: exactly "true" and "false" are booleans. The source
        unwraps the lookup, so a failed lookup is excluded here. */
    function GetBool(section: string, key: string): (r: Result<bool, TypeError>)
      reads this
      requires GetStr(section, key).Ok?
      ensures r.Ok? <==> GetStr(section, key).value in {"true", "false"}
      ensures r.Ok? ==> BoolText(r.value) == GetStr(section, key).value
    {
      var value := GetStr(section, key).value;
      if value == "true" then Ok(true)
      else if value == "false" then Ok(false)
      else Err(NotABoolean)
    }

    /** `get_int`: the value read as a `u32`. The lookup is unwrapped as in
        `get_bool`. */
    function GetInt(section: string, key: string): (r: Result<nat, TypeError>)
      reads this
      requires GetStr(section, key).Ok?
      ensures r.Ok? <==> ParseU32(GetStr(section, key).value).Some?
      ensures r.Ok? ==> r.value < 0x1_0000_0000 && Some(r.value) == ParseU32(GetStr(section, key).value)
    {
      match ParseU32(GetStr(section, key).value)
      case Some(n) => Ok(n)
      case None => Err(NotAnInteger)
    }

    /** `get_filter`: one of five names, or an error carrying the name. The
        lookup is unwrapped as in `get_bool`. */
    function GetFilter(section: string, key: string): (r: Result<Filter, FilterError>)
      reads this
      requires GetStr(section, key).Ok?
      ensures r.Ok? ==> FilterName(r.value) == GetStr(section, key).value
      ensures r.Err? ==> r.error == UnknownFilter(GetStr(section, key).value)
      ensures r.Err? ==> forall f: Filter :: FilterName(f) != GetStr(section, key).value
    {
      var filter := GetStr(section, key).value;
      RemoveAllAbsent(filter, "\"");
      match FilterFromName(RemoveAll(filter, "\""))
      case Some(f) => Ok(f)
      case None => Err(UnknownFilter(filter))
    }

    /** `set`: inserts or replaces one entry, creating the section when it is
        missing, and returns the slot it replaced. */
    method Set(section: string, key: string, value: Option<string>) returns (previous: Option<Option<string>>)
      modifies this
      ensures sections == old(sections)[section := SectionOf(old(sections), section)[key := value]]
      ensures previous == (if section in old(sections) && key in old(sections)[section] then Some(old(sections)[section][key]) else None)
      ensures GetStr(section, key) == (match value case Some(v) => Ok(RemoveAll(v, "\"")) case None => Err(KeyHasNoValue))
      ensures forall s, k :: s != section ==> GetStr(s, k) == old(GetStr(s, k))
      ensures forall k :: k != key && section in old(sections) ==> GetStr(section, k) == old(GetStr(section, k))
    {
      if section in sections {
        var secondary := sections[section];
        previous := if key in secondary then Some(secondary[key]) else None;
        sections := sections[section := secondary[key := value]];
      } else {
        var valueMap: Section := map[];
        valueMap := valueMap[key := value];
        sections := sections[section := valueMap];
        previous := None;
      }
    }

    /** `set_str`: `set` with a borrowed value. A value without '"' reads
        back unchanged. */
    method SetStr(section: string, key: string, value: Option<string>) returns (previous: Option<Option<string>>)
      modifies this
      ensures sections == old(sections)[section := SectionOf(old(sections), section)[key := value]]
      ensures previous == (if section in old(sections) && key in old(sections)[section] then Some(old(sections)[section][key]) else None)
      ensures value.Some? && '"' !in value.value ==> GetStr(section, key) == Ok(value.value)
    {
      previous := Set(section, key, value);
    }

    /** `load` once the file has been read into `text`: the parsed document
        replaces the stored one; on a parse error the stored one is kept. */
    method Load(text: string, target: Target) returns (r: Result<Document, ParseError>)
      modifies this
      ensures r == ParseDocument(text, default, comment, delimit, N(target))
      ensures r.Ok? ==> sections == r.value && WellFormed(sections, comment, delimit)
      ensures r.Err? ==> sections == old(sections)
    {
      r := Parse(text, target);
      if r.Ok? {
        ParseWellFormed(text, default, comment, delimit, N(target));
        sections := r.value;
      }
    }
  }

  // ---------------------------------------------------------------------
  // Lemmas

  /** A key line with a delimiter: an empty key is an error, any other key
      takes the trimmed text after the delimiter as its value. */
  lemma KeyKindEntry(trimmed: string, delimit: char, d: nat)
    requires d < |trimmed| && trimmed[d] == delimit && delimit !in trimmed[..d]
    ensures Trim(trimmed[..d]) == [] ==> KeyKind(trimmed, delimit) == MissingKey
    ensures Trim(trimmed[..d]) != [] ==> KeyKind(trimmed, delimit) == Entry(Trim(trimmed[..d]), Some(Trim(trimmed[d + 1..])))
  {
    FindCharIs(trimmed, delimit, d);
  }

  /** A key line stores its value in the current section and becomes the
      current key, whatever key was current before. */
  lemma ApplyEntry(st: ParseState, k: string, v: Option<string>, num: nat, newline: string)
    ensures Apply(st, Entry(k, v), num, newline)
         == Ok(ParseState(st.doc[st.section := SectionOf(st.doc, st.section)[k := v]], st.section, Some(k)))
  {
  }

  /** One line of the run. */
  lemma RunStep(kinds: seq<LineKind>, num: nat, st: ParseState, newline: string)
    requires num < |kinds|
    ensures Run(kinds[num..], st, num, newline)
         == match Apply(st, kinds[num], num, newline)
            case Err(e) => Err(e)
            case Ok(next) => Run(kinds[num + 1..], next, num + 1, newline)
  {
    assert kinds[num..][0] == kinds[num] && kinds[num..][1..] == kinds[num + 1..];
  }

  /** `find('[') == Some(0)` holds exactly for a line that opens with '['. */
  lemma HeaderTest(trimmed: string)
    requires trimmed != []
    ensures Find(trimmed, "[") == Some(0) <==> trimmed[0] == '['
  {
    if trimmed[0] == '[' {
      assert trimmed[0..1] == "[";
      FindIs(trimmed, "[", 0);
    } else {
      assert !OccursAt(trimmed, "[", 0);
    }
  }

  /** A character absent from a string is absent from each of its slices. */
  lemma AbsentFromSlice(s: string, a: nat, b: nat, c: char)
    requires a <= b <= |s| && c !in s
    ensures c !in s[a..b]
  {
    forall i | 0 <= i < b - a ensures s[a..b][i] != c {
      assert s[a..b][i] == s[a + i];
    }
  }

  /** A string built from characters of `s` lacks what `s` lacks. */
  lemma AbsentFromPart(r: string, s: string, c: char)
    requires forall i :: 0 <= i < |r| ==> r[i] in s
    requires c !in s
    ensures c !in r
  {
  }

  /** A line whose text after cutting the comment is whitespace only is
      skipped, even before any key; in particular a comment line. */
  lemma BlankLineSkipped(raw: string, comment: char, delimit: char, st: ParseState, num: nat, newline: string)
    requires forall i :: 0 <= i < |raw| && (comment !in raw[..i]) ==> IsWhitespace(raw[i]) || raw[i] == comment
    ensures Apply(st, Classify(raw, comment, delimit), num, newline) == Ok(st)
  {
    var line := CutComment(raw, comment);
    forall i | 0 <= i < |line| ensures IsWhitespace(line[i]) {
      assert line[..i] == raw[..i];
      assert line[i] == raw[i];
    }
  }

  /** Everything from the first comment character on is ignored. */
  lemma CutAt(a: string, b: string, comment: char)
    requires comment !in a
    ensures CutComment(a + [comment] + b, comment) == a
  {
    var raw := a + [comment] + b;
    assert raw[..|a|] == a;
    FindCharIs(raw, comment, |a|);
  }

  lemma CommentHidesRest(a: string, b1: string, b2: string, comment: char, delimit: char)
    requires comment !in a
    ensures Classify(a + [comment] + b1, comment, delimit) == Classify(a + [comment] + b2, comment, delimit)
  {
    CutAt(a, b1, comment);
    CutAt(a, b2, comment);
  }

  /** The key and value a key line yields avoid the characters the line avoids. */
  lemma KeyKindWellFormed(trimmed: string, comment: char, delimit: char)
    requires comment !in trimmed && trimmed != [] && !IsWhitespace(trimmed[0]) && !IsWhitespace(trimmed[|trimmed| - 1])
    ensures KindWellFormed(KeyKind(trimmed, delimit), comment, delimit)
  {
    match Find(trimmed, [delimit])
    case Some(d) =>
      FoundChar(trimmed, delimit, d);
      KeyAtWellFormed(trimmed, d, comment, delimit);
    case None =>
      NoOccurrenceNoChar(trimmed, delimit);
  }

  /** Cutting a comment-free line before its first delimiter gives a valid
      key and a comment-free value. */
  lemma KeyAtWellFormed(trimmed: string, d: nat, comment: char, delimit: char)
    requires d < |trimmed| && comment !in trimmed && delimit !in trimmed[..d]
    ensures KindWellFormed(KeyAt(trimmed, d), comment, delimit)
  {
    var key, value := Trim(trimmed[..d]), Trim(trimmed[d + 1..]);
    assert comment !in key && delimit !in key by {
      AbsentFromSlice(trimmed, 0, d, comment);
      AbsentFromPart(key, trimmed[..d], comment);
      AbsentFromPart(key, trimmed[..d], delimit);
    }
    assert comment !in value by {
      AbsentFromSlice(trimmed, d + 1, |trimmed|, comment);
      AbsentFromPart(value, trimmed[d + 1..], comment);
    }
    if key != [] {
      assert KeyAt(trimmed, d) == Entry(key, Some(value));
    }
  }


  /** Keys that `parse` takes from a line are valid, and the text it takes
      for a value or a continuation holds no comment character. */
  lemma ClassifyWellFormed(raw: string, comment: char, delimit: char)
    ensures KindWellFormed(Classify(raw, comment, delimit), comment, delimit)
  {
    var line := CutComment(raw, comment);
    var trimmed := Trim(line);
    if trimmed != [] {
      assert comment !in trimmed by {
        AbsentFromPart(trimmed, line, comment);
      }
      ClassifyLineWellFormed(line, trimmed, comment, delimit);
    }
  }

  /** The same for a line with text on it, given its trimmed form. */
  lemma ClassifyLineWellFormed(line: string, trimmed: string, comment: char, delimit: char)
    requires line != [] && trimmed == Trim(line) && trimmed != [] && comment !in trimmed
    ensures KindWellFormed(ClassifyLine(line, trimmed, delimit), comment, delimit)
  {
    if trimmed[0] == '[' {
      assert ClassifyLine(line, trimmed, delimit) == HeaderKind(trimmed);
    } else if IsWhitespace(line[0]) {
      assert ClassifyLine(line, trimmed, delimit) == Continuation(trimmed);
    } else {
      assert ClassifyLine(line, trimmed, delimit) == KeyKind(trimmed, delimit);
      KeyKindWellFormed(trimmed, comment, delimit);
    }
  }




  /** Storing a valid key with a comment-free value keeps a document well formed. */
  lemma InsertWellFormed(doc: Document, section: string, k: string, v: Option<string>, comment: char, delimit: char)
    requires WellFormed(doc, comment, delimit) && ValidKey(k, comment, delimit)
    requires v.Some? ==> comment !in v.value
    ensures WellFormed(doc[section := SectionOf(doc, section)[k := v]], comment, delimit)
  {
    var sec := SectionOf(doc, section)[k := v];
    var doc': Document := doc[section := sec];
    forall s: string, k': string | s in doc' && k' in doc'[s]
      ensures ValidKey(k', comment, delimit) && (doc'[s][k'].Some? ==> comment !in doc'[s][k'].value)
    {
      if s != section {
        assert doc'[s] == doc[s];
      } else if k' != k {
        assert section in doc && k' in doc[section] && sec[k'] == doc[section][k'];
      }
    }
  }

  /** What `ClassifyWellFormed` guarantees of a line's meaning. */
  predicate KindWellFormed(kind: LineKind, comment: char, delimit: char)
  {
    (kind.Entry? ==> ValidKey(kind.key, comment, delimit) && (kind.value.Some? ==> comment !in kind.value.value))
    && (kind.Continuation? ==> comment !in kind.text)
  }

  /** One line keeps the state well formed. */
  lemma ApplyWellFormed(st: ParseState, kind: LineKind, num: nat, comment: char, delimit: char, newline: string)
    requires StateWellFormed(st, comment, delimit) && KindWellFormed(kind, comment, delimit) && comment !in newline
    ensures match Apply(st, kind, num, newline)
      case Ok(next) => StateWellFormed(next, comment, delimit)
      case Err(_) => true
  {
    var sec := SectionOf(st.doc, st.section);
    match kind {
      case Continuation(text) =>
        if st.key.Some? {
          var k := st.key.value;
          var prev := if k in sec && sec[k].Some? then sec[k].value else [];
          assert comment !in prev by {
            if k in sec && sec[k].Some? {
              assert st.section in st.doc && k in st.doc[st.section];
            }
          }
          assert comment !in prev + newline + text;
          InsertWellFormed(st.doc, st.section, k, Some(prev + newline + text), comment, delimit);
        }
      case Entry(k, v) =>
        InsertWellFormed(st.doc, st.section, k, v, comment, delimit);
      case _ =>
    }
  }

  /** The whole run keeps the state well formed. */
  lemma {:induction false} RunWellFormed(kinds: seq<LineKind>, st: ParseState, num: nat, comment: char, delimit: char, newline: string)
    requires StateWellFormed(st, comment, delimit) && comment !in newline
    requires forall i :: 0 <= i < |kinds| ==> KindWellFormed(kinds[i], comment, delimit)
    ensures match Run(kinds, st, num, newline)
      case Ok(last) => StateWellFormed(last, comment, delimit)
      case Err(_) => true
    decreases |kinds|
  {
    if kinds != [] {
      ApplyWellFormed(st, kinds[0], num, comment, delimit, newline);
      match Apply(st, kinds[0], num, newline)
      case Err(_) =>
      case Ok(next) =>
        assert forall i :: 0 <= i < |kinds[1..]| ==> kinds[1..][i] == kinds[i + 1];
        RunWellFormed(kinds[1..], next, num + 1, comment, delimit, newline);
    }
  }

  /** Every document `parse` returns is well formed, whatever the input. */
  lemma ParseWellFormed(input: string, default: string, comment: char, delimit: char, newline: string)
    requires comment !in newline
    ensures ParseDocument(input, default, comment, delimit, newline).Ok? ==>
      WellFormed(ParseDocument(input, default, comment, delimit, newline).value, comment, delimit)
  {
    var lines := Lines(input);
    var kinds := Kinds(lines, comment, delimit);
    forall i | 0 <= i < |kinds| ensures KindWellFormed(kinds[i], comment, delimit) {
      ClassifyWellFormed(lines[i], comment, delimit);
    }
    RunWellFormed(kinds, ParseState(map[], default, None), 0, comment, delimit, newline);
  }

  lemma DigitsValueSnoc(s: string, c: char)
    requires AllDigits(s) && '0' <= c <= '9'
    ensures AllDigits(s + [c]) && DigitsValue(s + [c]) == 10 * DigitsValue(s) + (c as int - '0' as int)
  {
    assert (s + [c])[..|s|] == s;
  }

  /** `Decimal` spells the number it is given. */
  lemma {:induction false} DecimalValue(n: nat)
    ensures DigitsValue(Decimal(n)) == n
  {
    if n >= 10 {
      DecimalValue(n / 10);
      DigitsValueSnoc(Decimal(n / 10), ('0' as int + n % 10) as char);
    }
  }

  /** `u32` parsing reads back what `Display` writes, with or without a '+',
      exactly for the values below 2^32. */
  lemma DecimalRoundTrip(n: nat)
    ensures ParseU32(Decimal(n)) == (if n < 0x1_0000_0000 then Some(n) else None)
    ensures ParseU32("+" + Decimal(n)) == ParseU32(Decimal(n))
  {
    DecimalValue(n);
    assert ("+" + Decimal(n))[1..] == Decimal(n);
  }

  /** A '-' sign is never accepted. */
  lemma NegativeRejected(s: string)
    ensures ParseU32("-" + s) == None
  {
    assert ("-" + s)[0] == '-';
  }

  /** `get_bool` reads back what `BoolText` writes. */
  lemma BoolRoundTrip(h: Helio, section: string, key: string, b: bool)
    requires h.GetStr(section, key) == Ok(BoolText(b))
    ensures h.GetBool(section, key) == Ok(b)
  {
  }

  /** `get_filter` reads back each filter's name, and no two filters share one. */
  lemma FilterRoundTrip(h: Helio, section: string, key: string, f: Filter)
    requires h.GetStr(section, key) == Ok(FilterName(f))
    ensures h.GetFilter(section, key) == Ok(f)
  {
    FilterNameRoundTrip(f);
  }

  /** Each of the five names is read back as its own filter. */
  lemma FilterNameRoundTrip(f: Filter)
    ensures FilterFromName(FilterName(f)) == Some(f)
  {
    match f
    case Nearest =>
    case Gaussian =>
    case Triangle =>
    case CatmullRom =>
    case Lanczos3 =>
  }

  /** A key line followed by a continuation line: one key whose value is
      the two texts joined by the line break. */
  lemma KeyThenContinuation(k: string, v: string, text: string, default: string, newline: string)
    ensures Run([Entry(k, Some(v)), Continuation(text)], ParseState(map[], default, None), 0, newline)
         == Ok(ParseState(map[default := map[k := Some(v + newline + text)]], default, Some(k)))
  {
    var st0 := ParseState(map[], default, None);
    var st1 := ParseState(map[default := map[k := Some(v)]], default, Some(k));
    var st2 := ParseState(map[default := map[k := Some(v + newline + text)]], default, Some(k));
    assert SectionOf(map[], default) == map[];
    assert Apply(st0, Entry(k, Some(v)), 0, newline) == Ok(st1);
    assert Apply(st1, Continuation(text), 1, newline) == Ok(st2) by {
      assert SectionOf(st1.doc, default) == map[k := Some(v)];
      assert map[k := Some(v)][k := Some(v + newline + text)] == map[k := Some(v + newline + text)];
      assert map[default := map[k := Some(v)]][default := map[k := Some(v + newline + text)]]
          == map[default := map[k := Some(v + newline + text)]];
    }
    assert Run([Continuation(text)], st1, 1, newline) == Ok(st2) by {
      assert [Continuation(text)][0] == Continuation(text) && [Continuation(text)][1..] == [];
    }
    var ks := [Entry(k, Some(v)), Continuation(text)];
    assert ks[0] == Entry(k, Some(v)) && ks[1..] == [Continuation(text)];
  }

  /** A continuation appends a line break and its text to the current key's
      value in the current section. A key holding a value gets that value
      extended; a key that is missing there (the section changed since) or
      holds no value gets the line break and the text alone. Every other key
      and every other section stays, and so do the section and the key. With
      no current key the line is an error. */
  lemma ContinuationStep(st: ParseState, text: string, num: nat, newline: string)
    ensures st.key.None? ==> Apply(st, Continuation(text), num, newline) == Err(MissingKeyForContinuation(num))
    ensures st.key.Some? ==>
            var k, sec := st.key.value, SectionOf(st.doc, st.section);
            var r := Apply(st, Continuation(text), num, newline);
            r.Ok? && r.value.section == st.section && r.value.key == st.key &&
            r.value.doc.Keys == st.doc.Keys + {st.section} &&
            (forall name :: name in st.doc && name != st.section ==> r.value.doc[name] == st.doc[name]) &&
            r.value.doc[st.section].Keys == sec.Keys + {k} &&
            (forall j :: j in sec && j != k ==> r.value.doc[st.section][j] == sec[j]) &&
            (k in sec && sec[k].Some? ==> r.value.doc[st.section][k] == Some(sec[k].value + newline + text)) &&
            (k !in sec || sec[k].None? ==> r.value.doc[st.section][k] == Some(newline + text))
  {
    if st.key.Some? {
      assert [] + newline + text == newline + text;
    }
  }

  /** Running the meanings of `a + b` runs `a`, then `b` from where `a`
      ended, unless `a` already failed: the parse stops at its first error. */
  lemma {:induction false} RunAppend(a: seq<LineKind>, b: seq<LineKind>, st: ParseState, num: nat, newline: string)
    ensures Run(a + b, st, num, newline)
         == match Run(a, st, num, newline)
            case Err(e) => Err(e)
            case Ok(mid) => Run(b, mid, num + |a|, newline)
    decreases |a|
  {
    if a == [] {
      assert a + b == b;
    } else {
      assert (a + b)[0] == a[0] && (a + b)[1..] == a[1..] + b;
      match Apply(st, a[0], num, newline)
      case Err(_) =>
      case Ok(next) => RunAppend(a[1..], b, next, num + 1, newline);
    }
  }

  /** When the first line fails, the whole parse fails with its error. */
  lemma FirstLineFails(raw: string, rest: string, default: string, comment: char, delimit: char, newline: string, e: ParseError)
    requires '\n' !in raw
    requires Apply(ParseState(map[], default, None), Classify(DropCarriageReturn(raw), comment, delimit), 0, newline) == Err(e)
    ensures ParseDocument(raw + "\n" + rest, default, comment, delimit, newline) == Err(e)
  {
    LinesCons(raw, rest);
    var kinds := Kinds(Lines(raw + "\n" + rest), comment, delimit);
    assert kinds[0] == Classify(DropCarriageReturn(raw), comment, delimit);
  }

  /** A line whose text opens with '[' is a header named by the trimmed
      text up to its last ']', indented or not; the header moves the parser
      to that section and keeps the current key and the document. */
  lemma HeaderLine(raw: string, comment: char, delimit: char, e: nat, st: ParseState, num: nat, newline: string)
    requires var t := Trim(CutComment(raw, comment));
             t != [] && t[0] == '[' && e < |t| && t[e] == ']' && forall j :: e < j < |t| ==> t[j] != ']'
    ensures 1 <= e
    ensures var t := Trim(CutComment(raw, comment));
            Classify(raw, comment, delimit) == Header(Trim(t[1..e])) &&
            Apply(st, Classify(raw, comment, delimit), num, newline) == Ok(ParseState(st.doc, Trim(t[1..e]), st.key))
  {
    var line := CutComment(raw, comment);
    HeaderOf(line, Trim(line), delimit, e);
  }

  lemma HeaderOf(line: string, t: string, delimit: char, e: nat)
    requires t == Trim(line) && t != [] && t[0] == '['
    requires e < |t| && t[e] == ']' && forall j :: e < j < |t| ==> t[j] != ']'
    ensures 1 <= e && ClassifyLine(line, t, delimit) == Header(Trim(t[1..e]))
  {
    assert line != [];
    assert ClassifyLine(line, t, delimit) == HeaderKind(t);
    LastBracket(t, e);
  }

  /** `rfind(']')` is the position of the last ']'. */
  lemma LastBracket(t: string, e: nat)
    requires e < |t| && t[e] == ']' && forall j :: e < j < |t| ==> t[j] != ']'
    ensures RFindChar(t, ']') == Some(e)
  {
  }

  /** A line opening with '[' and holding no ']' is an unclosed header. */
  lemma UnclosedHeaderLine(raw: string, comment: char, delimit: char)
    requires var t := Trim(CutComment(raw, comment)); t != [] && t[0] == '[' && ']' !in t
    ensures Classify(raw, comment, delimit) == UnclosedHeader
  {
    var t := Trim(CutComment(raw, comment));
    assert RFindChar(t, ']') == None;
  }

  /** An indented line that does not open a header is a continuation of
      its trimmed text. */
  lemma IndentedLine(raw: string, comment: char, delimit: char)
    requires raw != [] && IsWhitespace(raw[0])
    requires var t := Trim(CutComment(raw, comment)); t != [] && t[0] != '['
    ensures Classify(raw, comment, delimit) == Continuation(Trim(CutComment(raw, comment)))
  {
    var line := CutComment(raw, comment);
    var t := Trim(line);
    assert line[0] == raw[0];
  }

  /** A line that starts with the delimiter has an empty key. */
  lemma DelimiterFirstLine(raw: string, comment: char, delimit: char)
    requires raw != [] && !IsWhitespace(raw[0]) && delimit != '['
    requires var t := Trim(CutComment(raw, comment)); t != [] && t[0] == delimit
    ensures Classify(raw, comment, delimit) == MissingKey
  {
    var line := CutComment(raw, comment);
    var t := Trim(line);
    assert line[0] == raw[0];
    FindCharIs(t, delimit, 0);
    assert t[..0] == [];
    assert Classify(raw, comment, delimit) == ClassifyLine(line, t, delimit) == KeyKind(t, delimit);
  }

  /** An indented first line continues no key: the parse fails on line 0. */
  lemma LeadingContinuationFails(raw: string, rest: string, default: string, comment: char, delimit: char, newline: string)
    requires raw != [] && '\n' !in raw && raw[|raw| - 1] != '\r' && IsWhitespace(raw[0])
    requires var t := Trim(CutComment(raw, comment)); t != [] && t[0] != '['
    ensures ParseDocument(raw + "\n" + rest, default, comment, delimit, newline) == Err(MissingKeyForContinuation(0))
  {
    assert DropCarriageReturn(raw) == raw;
    IndentedLine(raw, comment, delimit);
    FirstLineFails(raw, rest, default, comment, delimit, newline, MissingKeyForContinuation(0));
  }

  /** An unclosed header on the first line fails the parse on line 1. */
  lemma UnclosedHeaderFails(raw: string, rest: string, default: string, comment: char, delimit: char, newline: string)
    requires '\n' !in raw && (raw == [] || raw[|raw| - 1] != '\r')
    requires var t := Trim(CutComment(raw, comment)); t != [] && t[0] == '[' && ']' !in t
    ensures ParseDocument(raw + "\n" + rest, default, comment, delimit, newline) == Err(MissingClosingBracket(1))
  {
    assert DropCarriageReturn(raw) == raw;
    UnclosedHeaderLine(raw, comment, delimit);
    assert Apply(ParseState(map[], default, None), UnclosedHeader, 0, newline) == Err(MissingClosingBracket(1));
    FirstLineFails(raw, rest, default, comment, delimit, newline, MissingClosingBracket(1));
  }
}
