# lifetch-rs core, modelled in Dafny

lifetch-rs is a system-information fetcher for the terminal. It reads a
configuration file in its own "helio" format and fills a text template
whose placeholders (`{NAME}`) and case markers (`[U]…[/U]`, `[L]…[/L]`)
are replaced from a symbol table. It lays out ASCII art and fetched
modules side by side in columns, and frames error messages in a box.

This project models the deterministic core of that pipeline and proves
properties of it:

- `helio.dfy`: the line-oriented configuration parser, its typed
  accessors, and the in-place `set`/`set_str`.
- `helio_examples.dfy`: the parser on small inputs.
- `iterator.dfy`: the placeholder lexer, a two-state machine over a
  suffix cursor.
- `creator.dfy`: the template engine. Its two folds are substitution from
  a symbol table and case forcing.
- `template_examples.dfy`: worked examples of the lexer and both folds,
  including the two chained case passes of `src/main.rs`.
- `builder.dfy`: the column layout `Builder` and `create_spaces`.
- `builder_examples.dfy`: the layouts from the source's tests.
- `hyperstr.dfy`: ANSI colour stripping, the colour table, vertical
  centring of the art, and the line separator `N`.
- `stylize.dfy`: the rounded message box.
- `args.dfy`: the command-line argument registry and parser.
- `random.dfy`: the SplitMix/xoshiro-style generator. Its thread-local
  registers are the fields of one generator object.
- `mth.dfy`: `to_vector`.
- `uptime.dfy`: `time_prefix`.
- `modules.dfy`: the `FetchModules` list.
- `strings.dfy`: the Rust string primitives the rest relies on: `find`,
  `trim`, `replace(p, "")`, `split`, `lines` and ASCII case mapping.

Imperative code is modelled as methods with loops and classes with
fields. Each method is proved against a specification function, and the
lemmas state what the source promises about that function.

## Model

| member | source | states |
|---|---|---|
| Helio.Helio.constructor | src/config/helio/mod.rs:31-39 | a new parser holds no sections, its default section is "default", its comment character '#' and its delimiter '=' |
| Helio.Helio.Parse | src/config/helio/mod.rs:100-191 | the loop over the lines gives exactly the document of the functional line-by-line run, or the first error that run meets |
| Helio.Helio.ParseLine | src/config/helio/mod.rs:107-187 | one loop iteration: cutting the comment, skipping blank lines, then header, continuation or key handling, as the classified line prescribes |
| Helio.Helio.ParseText | src/config/helio/mod.rs:119-187 | a non-blank line is a header when its first '[' is at index 0; it fails with the 1-based line number when there is no ']'; an indented line is a continuation; any other line is a key line |
| Helio.Helio.ParseKey | src/config/helio/mod.rs:164-187 | a key line stores its trimmed key with its trimmed value, or with no value when there is no delimiter, and makes that key current; an empty key fails |
| Helio.CutComment | src/config/helio/mod.rs:108-111 | the result is the longest prefix of the raw line without the comment character, and that character ends it when it is shorter |
| Helio.CutAt | src/config/helio/mod.rs:108-111 | everything from the first comment character on is dropped, even inside a quoted value |
| Helio.CommentHidesRest | src/config/helio/mod.rs:107-111 | two lines that agree up to the first comment character mean the same to the parser |
| Helio.BlankLineSkipped | src/config/helio/mod.rs:113-117 | a line that is whitespace up to its comment leaves the parser state unchanged, so it never raises the continuation error |
| Helio.HeaderLine | src/config/helio/mod.rs:119-124 | a line whose trimmed text opens with '[' and has its last ']' at e is, indented or not, the header named by the trimmed text between them, and moves the parser to that section with the document and the current key unchanged |
| Helio.UnclosedHeaderLine | src/config/helio/mod.rs:125-130 | a trimmed line opening with '[' and holding no ']' is an unclosed header |
| Helio.UnclosedHeaderFails | src/config/helio/mod.rs:119-130 | an unclosed header on the first line fails the whole parse with line number 1 |
| Helio.IndentedLine | src/config/helio/mod.rs:134-162 | an indented line that does not open a header is a continuation carrying its trimmed text |
| Helio.LeadingContinuationFails | src/config/helio/mod.rs:134-143 | a continuation before any key fails the parse with the 0-based line number 0 |
| Helio.DelimiterFirstLine | src/config/helio/mod.rs:166-175 | a key line that starts with the delimiter has an empty key and fails |
| Helio.KeyKindEntry | src/config/helio/mod.rs:166-180 | for a delimiter at a position with none before it, an empty trimmed key before it is an error, and any other key takes the trimmed text after it as its value |
| Helio.KeyAtWellFormed | src/config/helio/mod.rs:166-180 | cutting a comment-free line at its first delimiter gives a valid key and a value free of the comment character |
| Helio.KeyKindWellFormed | src/config/helio/mod.rs:166-186 | a key line, with or without a delimiter, yields a valid key and a comment-free value |
| Helio.HeaderTest | src/config/helio/mod.rs:119 | `find('[')` is `Some(0)` exactly when the trimmed line opens with '[' |
| Helio.ContinuationStep | src/config/helio/mod.rs:134-159 | with no current key a continuation is an error on that line; otherwise the current key's value in the current section gets the line separator and the text appended, a key missing there or holding no value gets the separator and the text alone, and every other key, every other section, the section and the key stay |
| Helio.KeyThenContinuation | src/config/helio/mod.rs:145-187 | a key line followed by a continuation yields one key whose value is both texts joined by the separator |
| Helio.RunAppend | src/config/helio/mod.rs:107-188 | running two blocks of lines is running the first, then the second from the state it leaves, unless the first fails |
| Helio.FirstLineFails | src/config/helio/mod.rs:107-190 | when the first line fails, the parse returns that line's error |
| Helio.ClassifyWellFormed | src/config/helio/mod.rs:107-187 | every key the parser takes from a line is non-empty, trimmed and free of the comment character and the delimiter, and so is every value it takes |
| Helio.ClassifyLineWellFormed | src/config/helio/mod.rs:113-186 | a non-blank, comment-free line is a header, a continuation with comment-free text, or an entry with a valid key and a comment-free value |
| Helio.ParseWellFormed | src/config/helio/mod.rs:100-191 | every document the parser returns, from any input, has only such keys and values |
| Helio.Helio.GetStr | src/config/helio/mod.rs:193-218 | a missing section, a missing key and a key without a value are three distinct errors, tested in that order; otherwise the value with every '"' removed: exactly its other characters, in order, the same characters less the quotes, and shorter by the number of quotes |
| Helio.Helio.GetBool | src/config/helio/mod.rs:220-236 | succeeds exactly on "true" and "false" and reads them back |
| Helio.BoolRoundTrip | src/config/helio/mod.rs:220-236 | a stored spelling of a boolean reads back as that boolean |
| Helio.ParseU32 | src/config/helio/mod.rs:241 | only an optional '+' followed by one or more decimal digits whose value is below 2^32 parses |
| Helio.Helio.GetInt | src/config/helio/mod.rs:238-253 | succeeds exactly when the value parses as a `u32`, with that number |
| Helio.DecimalRoundTrip | src/config/helio/mod.rs:238-253 | the decimal spelling of a number reads back as that number, with or without '+', exactly when it is below 2^32 |
| Helio.NegativeRejected | src/config/helio/mod.rs:238-253 | no text starting with '-' parses as a `u32` |
| Helio.FilterFromName | src/config/helio/mod.rs:258-271 | exactly the five filter names are read, each as its filter |
| Helio.Helio.GetFilter | src/config/helio/mod.rs:255-272 | one of the five names gives its filter; any other value gives an error carrying it |
| Helio.FilterRoundTrip | src/config/helio/mod.rs:255-272 | a stored filter name reads back as that filter |
| Helio.FilterNameRoundTrip | src/config/helio/mod.rs:258-263 | no two filters share a name |
| Helio.Helio.Set | src/config/helio/mod.rs:274-289 | upserts one entry, creating the section if needed, returns the old slot only when the section existed, and changes no other lookup |
| Helio.Helio.SetStr | src/config/helio/mod.rs:291-298 | `set` with the borrowed value; a stored quote-free value reads back unchanged |
| Helio.Helio.Load | src/config/helio/mod.rs:49-71 | once the file is read, a successful parse replaces the document with a well-formed one, and a failed one leaves it as it was |
| HelioExamples.IndentedAt | src/config/helio/default.rs:53-64 | an indented line "  x" continues the current key with "x" |
| HelioExamples.KeyFirstAt | src/config/helio/mod.rs:164-180 | "key = first" stores key "key" with value "first" |
| HelioExamples.EmptyKeyAt | src/config/helio/mod.rs:170-175 | "= v" is a key line with an empty key |
| Iterator.Step | src/variable/iterator.rs:31-64 | one step yields a suffix of the cursor; it shrinks the cursor unless it moves from literal text onto a start marker |
| Iterator.VariableIterator.constructor | src/variable/iterator.rs:22-29 | the iterator starts on the whole text in literal state, and will yield exactly the token list of that text |
| Iterator.VariableIterator.ParseText | src/variable/iterator.rs:31-44 | with a start marker at index i: the literal before it, possibly empty; the cursor keeps the marker; the state becomes placeholder. Otherwise: all the rest as one literal, and the cursor becomes empty |
| Iterator.VariableIterator.ParseVar | src/variable/iterator.rs:46-64 | with an end marker: the text between the markers, trimmed of ' ' only, and the cursor moves past the end marker. Otherwise: the rest, dangling marker included, as a literal. Either way the state returns to literal |
| Iterator.VariableIterator.Next | src/variable/iterator.rs:70-79 | `None` exactly when the cursor is empty; otherwise the next token of the list, which then loses its first element; the cursor stays a suffix of what it was |
| Iterator.MarkersSafeRun | src/variable/iterator.rs:50-52 | when no suffix of the start marker overlaps the end marker, no run reaches the panicking slice |
| Iterator.NoEarlyEnd | src/variable/iterator.rs:50-52 | with such markers, the end marker never occurs inside the start marker at the cursor |
| Iterator.NoMarkerOneLiteral | src/variable/iterator.rs:34-41 | text without a start marker is one literal holding all of it |
| Creator.Creator.Init | src/variable/creator.rs:10-14 | the stored tokens are exactly those the lexer yields for the text |
| Creator.Creator.ProcessVariables | src/variable/creator.rs:17-33 | always `Some`, holding the fold that copies literals and looks placeholders up by their upper-cased name |
| Creator.Creator.ProcessCase | src/variable/creator.rs:36-53 | always `Some`, holding the fold that copies literals and case-forces placeholder names |
| Creator.SubstituteAppend | src/variable/creator.rs:20-30 | substitution works token by token: a concatenation of token lists gives the concatenated texts |
| Creator.FoldCaseAppend | src/variable/creator.rs:39-50 | case forcing works token by token in the same way |
| Creator.NoPlaceholderVerbatim | src/variable/creator.rs:17-53 | without placeholders both folds give the literal text |
| Creator.NoMarkerUnchanged | src/variable/creator.rs:17-53 | a template without the start marker comes out of either fold unchanged |
| Creator.NoVariableLiterals | src/variable/creator.rs:17-53 | for every safe template whose tokens hold no `Variable`, the literals put back together are the whole template, a dangling start marker included |
| Creator.NoVariableUnchanged | src/variable/creator.rs:17-53 | for every safe template whose tokens hold no `Variable`, both `process_variables` and `process_case` give the template back, whatever the table or the mode |
| Creator.DanglingRest | src/variable/iterator.rs:46-61 | from a start marker, a run without placeholders is one literal holding the rest of the text: no end marker follows |
| Creator.PlaceholderLookup | src/variable/creator.rs:23-28 | a placeholder contributes the table's entry for its upper-cased name, or nothing when that name is missing |
| Creator.PlaceholderCase | src/variable/creator.rs:42-44 | mode 0 upper-cases a placeholder's own text and mode 1 lower-cases it |
| Creator.OtherModeKeepsLiterals | src/variable/creator.rs:45-47 | any other mode drops every placeholder and keeps the literals in order |
| TemplateExamples.HelloExample | src/variable/iterator.rs:46-57 | "Hello {NAME}!" lexes as the literal "Hello ", the placeholder "NAME" and the literal "!" |
| TemplateExamples.HelloSubstitution | src/variable/creator.rs:20-28 | with NAME mapped to "World" those tokens give "Hello World!" |
| TemplateExamples.DanglingExample | src/variable/iterator.rs:58-61 | "foo {BAR" lexes as two literals, "foo " and "{BAR", and substitutes to itself |
| TemplateExamples.UnknownPlaceholderExample | src/variable/creator.rs:25-27 | an unknown placeholder contributes nothing and the literals around it stay |
| TemplateExamples.UpperTokens | src/variable/iterator.rs:34-37 | text that begins with the start marker yields an empty literal first |
| TemplateExamples.CaseChainExample | src/main.rs:249-273 | the upper-case pass with `[U]`/`[/U]`, then the lower-case pass with `[L]`/`[/L]`, turn "[U]Loud[/U] and [L]Quiet[/L]" into "LOUD and quiet" |
| Builder.Layout | src/builder/mod.rs:35-66 | `from` keeps the columns; its tab width is the longest item plus three; `largest` is the length of the longest column; `swap` holds exactly when some column has more than 80 items |
| Builder.From | src/builder/mod.rs:35-66 | the three max-tracking blocks build exactly that layout |
| Builder.SwapBlock | src/builder/mod.rs:37-45 | the first block is true exactly when the longest column has more than 80 items |
| Builder.TabsizeBlock | src/builder/mod.rs:47-55 | the second block is the longest item length plus three |
| Builder.LargestBlock | src/builder/mod.rs:56-64 | the third block is the length of the longest column |
| Builder.Tallest | src/builder/mod.rs:56-64 | no column is longer than the result, and a positive result is some column's length |
| Builder.Widest | src/builder/mod.rs:47-55 | no item is longer than the result, and a positive result is some item's length |
| Builder.TallestUnique | src/builder/mod.rs:56-64 | these two properties determine the maximum |
| Builder.Swap | src/builder/mod.rs:104-111 | `swap(true)` reverses the column order and keeps the other fields; `swap(false)` is an identical copy |
| Builder.SwapTwice | src/builder/mod.rs:104-111 | swapping twice restores the layout |
| Builder.SwapLayout | src/builder/mod.rs:104-111 | swapping a built layout is building from the reversed columns |
| Builder.SetTab | src/builder/mod.rs:155-162 | `set_tab` changes the tab width and nothing else |
| Builder.SetTabLastWins | src/builder/mod.rs:155-162 | only the last `set_tab` counts, and setting the current width changes nothing |
| Builder.PositionFirst | src/builder/mod.rs:136 | `position` finds the first column equal to the given one, or none when no column is equal |
| Builder.CellShape | src/builder/mod.rs:133-139 | a cell is its item followed only by spaces; a padded column's cell is as wide as the larger of the item and the tab width; items are never cut |
| Builder.InnerColumnsPadded | src/builder/mod.rs:135-139 | every column but the last is padded |
| Builder.LastColumnPadded | src/builder/mod.rs:135-139 | the last column is padded exactly when an earlier column is equal to it |
| Builder.CreateSpaces | src/builder/mod.rs:180-188 | `create_spaces(n)` is exactly n spaces |
| Builder.ColumnBuilder | src/builder/mod.rs:127-145 | the loop prints exactly the rows of the layout, each followed by a line end |
| Builder.BuildRow | src/builder/mod.rs:131-140 | the inner loop builds row i column by column, with "" for columns shorter than i+1 |
| Builder.Rows | src/builder/mod.rs:130-143 | there are exactly `largest` rows |
| Builder.OutputLines | src/builder/mod.rs:127-145 | when no item holds a line end, the output splits into exactly the rows plus an empty tail, and has `largest` line ends |
| Builder.OutputEnds | src/builder/mod.rs:142 | a non-empty output ends with a line end |
| Builder.TabZeroJoins | src/builder/mod.rs:135-139 | with tab width 0 a row is its items run together |
| Builder.LayoutAligned | src/builder/mod.rs:47-55 | in a layout from `from`, column c's item on any row starts at c times the tab width |
| Builder.ColumnStart | src/builder/mod.rs:131-140 | when every item outside the last column is shorter than the tab width, column c's item starts c tab widths into every row |
| Builder.RowsNoNewline | src/builder/mod.rs:131-140 | no row holds a line end when no item does |
| BuilderExamples.TestBuilder | src/builder/mod.rs:257-262 | the test columns print as "a   d\nb   e\nc   f\n" |
| BuilderExamples.TestTabsize | src/builder/mod.rs:273-278 | under `set_tab(10)` they print as the test expects |
| BuilderExamples.TestTabsizeZero | src/builder/mod.rs:289-294 | under `set_tab(0)` they print as "ad\nbe\ncf\n" |
| BuilderExamples.TestSwap | src/builder/mod.rs:340-345 | `set_tab(10)` followed by `swap(true)` puts the second column first |
| Hyperstr.N | src/util/hyperstr.rs:33-37 | the separator is "\r\n" on Windows and "\n" elsewhere: one line end, with at most a '\r' before it |
| Hyperstr.LinesN | src/util/hyperstr.rs:33-37 | `lines` reads the separator as exactly one line break on every target |
| Hyperstr.StripAnsi | src/util/hyperstr.rs:130-158 | the stripped text is never longer than the input |
| Hyperstr.RemovePass | src/util/hyperstr.rs:132-157 | one `replace(code, "")` pass removes exactly the occurrences of its code from styled text |
| Hyperstr.StripAnsiVisible | src/util/hyperstr.rs:130-158 | text made of plain runs and the 24 listed codes strips to exactly the characters a terminal shows |
| Hyperstr.StripAnsiPlain | src/util/hyperstr.rs:130-158 | text without an escape character is returned unchanged |
| Hyperstr.StripAnsiCode | src/util/hyperstr.rs:131-157 | every listed code strips to nothing |
| Hyperstr.StripAnsiWrapped | src/util/hyperstr.rs:116-125 | text wrapped in a colour code and a reset, as in the documented example, strips to the plain text |
| Hyperstr.SgrCodesWellFormed | src/util/hyperstr.rs:132-157 | every listed code is ESC, '[', parameter digits and 'm' |
| Hyperstr.Colormap | src/util/hyperstr.rs:44-78 | the table's keys are exactly the 31 distinct names inserted; the name at each position of `ColourNames` maps to the code at the same position of `ColourCodes` (BLACK to `\x1b[30m`, ..., "INVISIBLE" and "IN" to HIDDEN); every value is one of the SGR codes that `strip_ansi_colors` removes; "R", inserted twice, ends up as REVERSE and "RESET" as RESET |
| Hyperstr.ColourNamesCount | src/util/hyperstr.rs:46-77 | the table has 31 distinct names |
| Hyperstr.AsciiCheck | src/util/hyperstr.rs:92-100 | the art is unchanged unless centring is on and the fetch text is taller; otherwise half the difference in lines of 24 spaces is appended |
| Hyperstr.Padding | src/util/hyperstr.rs:94-98 | n padding lines are 25n characters long |
| Hyperstr.PaddingLines | src/util/hyperstr.rs:94-98 | the padding reads back as n lines of 24 spaces |
| Stylize.ApplyBorder | src/error/stylize.rs:16-22 | the single-line layout is used exactly when splitting at '\n' gives one piece; otherwise the multi-line layout |
| Stylize.Single | src/error/stylize.rs:24-53 | the pushes build the top edge, the framed text and the bottom edge of the single-line box |
| Stylize.Multi | src/error/stylize.rs:55-94 | the pushes build the top edge, one padded row per line and the bottom edge |
| Stylize.Widest | src/error/stylize.rs:64-69 | the loop finds the largest stripped width of the lines |
| Stylize.MaxWidth | src/error/stylize.rs:64-69 | no line is wider than the result, and some line reaches it unless there are none |
| Stylize.PushRows | src/error/stylize.rs:77-87 | one framed, padded row per line, in order; the padding never underflows because no line is wider than the width |
| Stylize.PushEdge | src/error/stylize.rs:36-38 | the loop appends exactly n edge characters |
| Stylize.BorderIsMulti | src/error/stylize.rs:16-94 | the single-line box is the multi-line box of its one line |
| Stylize.BorderVisible | src/error/stylize.rs:55-94 | for plain text, the box a terminal shows is one line per input line between two borders |
| Stylize.PlainBoxAligned | src/error/stylize.rs:70-93 | every shown line is as wide as the widest input line plus four, and each row is its input line padded with spaces |
| Stylize.BorderLineCount | src/error/stylize.rs:70-93 | the output has two lines more than the input and ends on the bottom corner, without a trailing line break |
| Stylize.OneLineBorder | src/error/stylize.rs:24-53 | a one-line plain text shows as a top edge of width plus two, the framed text, and the bottom edge |
| Stylize.SingleRow | src/error/stylize.rs:24-53 | the single-line box is the top edge, one framed row without padding, and the bottom edge |
| Stylize.BoxStripped | src/error/stylize.rs:55-94 | stripping the colour codes from the box leaves the plain top edge, each plain padded row ending in a line end, and the bottom edge; no line is wider than the width |
| Stylize.HelloBorder | src/error/stylize.rs:101-113 | "Hello, world!" shows with 15 edge characters |
| Stylize.HelloThreeLines | src/error/stylize.rs:115-131 | the three-line test text shows with 17 edge characters and padded rows |
| Args.Alias | src/args/mod.rs:66-73 | a name is appended only when it is not already an alias; other fields are unchanged |
| Args.AliasKeepsDistinct | src/args/mod.rs:66-73 | aliases never repeat, and adding one twice is adding it once |
| Args.CountValues | src/args/mod.rs:75-78 | `count` sets the number of values and nothing else |
| Args.Help | src/args/mod.rs:80-83 | `help` sets the help text and nothing else |
| Args.RegisterShape | src/args/mod.rs:147-153 | registration adds exactly one key per alias, in the argument's context, holding the argument, and leaves every other key alone |
| Args.RegisterWellFormed | src/args/mod.rs:144-156 | registering with a fresh id keeps ids between 1 and the last one, and keeps keys consistent with aliases |
| Args.Args.constructor | src/args/mod.rs:103-124 | a new registry is empty with last id 0 |
| Args.Args.GenerateId | src/args/mod.rs:139-142 | ids increase by one and the new id is returned |
| Args.Args.AddToMap | src/args/mod.rs:144-156 | the argument gets the next id, larger than every stored one; it is stored under every alias; its aliases are appended to `order` |
| Args.Args.Add | src/args/mod.rs:158-169 | a top-level argument with one alias is stored under "0#alias", and every other key is kept |
| Args.Args.AddArg | src/args/mod.rs:171-173 | `add_arg` registers the given argument like `add_to_map` |
| Args.Args.Parse | src/args/mod.rs:283-393 | the loop over an explicit command line gives exactly the functional scan: help stops it; the matched keys get their values; too few values fail; an alias known only in another context fails |
| Args.Get | src/args/mod.rs:34-37 | `get` looks only at the top-level key "0#name" |
| Args.Has | src/args/mod.rs:39-41 | `has` holds exactly when `get` finds something |
| Args.TakeShape | src/args/mod.rs:310-320 | the values taken are the first that follow, at most n, none of them stopping; fewer than n only at the end or at a stopping one |
| Args.CollectPlain | src/args/mod.rs:306-320 | the first branch's loop stops at n values, at the end, or at an argument starting with '-' |
| Args.CollectFree | src/args/mod.rs:342-362 | the second branch's loop stops at n values, at the end, or at an argument registered in the current context or at the top level |
| ArgsParse.ScanRecords | src/args/mod.rs:296-392 | a successful parse records only registered keys, each with exactly as many values as its argument asks for |
| ArgsParse.ParsedGet | src/args/mod.rs:34-41 | after a successful parse, `has(k)` implies "0#k" is registered and `get(k)` holds all its values |
| ArgsParse.UnknownIgnored | src/args/mod.rs:381-389 | unregistered arguments are skipped without error |
| ArgsParse.OnlySubArguments | src/args/mod.rs:381-388 | in a well-formed registry, whichever argument the third branch finds is a sub-argument, so the parse fails |
| ArgsExamples.ConfigRegistry | src/args/mod.rs:144-156 | one argument with two aliases is stored under both top-level keys and nowhere else |
| ArgsExamples.LookupByTypedAlias | src/args/mod.rs:300-338 | "-c x" records "x" under the alias typed, so `get("-c")` finds it and `has("--config")` is false |
| Random.Rng.constructor | src/random/mod.rs:21-29 | all cells start at zero |
| Random.Rng.Put | src/random/mod.rs:48-53 | `put` replaces X0..X3 and nothing else |
| Random.Rng.Split | src/random/mod.rs:100-106 | `split` stores the seed plus the increment, wrapping, and returns the SplitMix mix of it; the registers are untouched |
| Random.Rng.ResetAsWritten | src/random/mod.rs:41-45 | as written, all four splits start from the saved seed: the registers are four copies of one value and the seed advances once |
| Random.Rng.Reset | src/random/mod.rs:41-45 | as meant, the registers are four successive split outputs and the seed advances four times |
| Random.Rng.SetSeedAsWritten | src/random/mod.rs:32-45 | as written, seed 0 changes nothing; any other seed becomes SEED, X0..X3 become four copies of its one split, and SEED advances once; X4 is never touched |
| Random.Rng.SetSeed | src/random/mod.rs:32-38 | with `reset` as meant, seed 0 changes nothing; any other seed reseeds X0..X3 with four successive splits from itself; X4 is never touched |
| Random.Rng.Randomize | src/random/mod.rs:148-175 | the result comes from X1 before the update; the registers take the xoshiro256 step; the seed and X4 are untouched |
| Random.Rng.Rand | src/random/mod.rs:17-19 | the result is the 8-bit `randomize` output of X1 reduced modulo the width of the range and shifted by the lower bound, so it lies between the bounds, both included; the generator advances one step |
| Random.RotateOne | src/random/mod.rs:182-190 | one rotated left by one is two |
| Random.RotateCases | src/random/mod.rs:122-124 | the rotation by 7 is a left rotation, and a rotation by -1 turns right by one |
| Random.ZeroStaysZero | src/random/mod.rs:160-168 | the all-zero state is a fixed point of the step |
| Random.OutputWidth | src/random/mod.rs:174 | with 64 bits the output is the low half of the scrambled value; with 8 bits the cast still keeps 64 bits of the shifted value |
| Random.TestSeedRegisters | src/random/mod.rs:41-45 | for seed 123456789, reset as written gives four equal registers, and reset as meant gives four distinct ones |
| Random.OverflowBounds | src/random/mod.rs:158 | the two thresholds are the largest values whose products by 5 and by 9 stay below 2^128 |
| Random.TestSeedOverflows | src/random/mod.rs:193-199 | after `set_seed(123456789)` the unchecked `* 9` overflows with reset as written, and the `* 5` overflows with reset as meant |
| Random.TestSeedNonZero | src/random/mod.rs:192-208 | the first split of the test seed is not zero, and neither is the first 64-bit output after seeding with it |
| Mth.ToVector | src/util/mth.rs:96-102 | one element per '\n'-separated piece: as many as there are '\n' plus one, none holding '\n'; joined with '\n' they give back the input, so '\r' is kept |
| Mth.EmptyGivesOnePiece | src/util/mth.rs:98 | the empty string gives one empty piece |
| Mth.CarriageReturnKept | src/util/mth.rs:98 | "a\r\nb" gives "a\r" and "b" |
| Uptime.Utf8Width | src/fetch/uptime.rs:45 | a character takes one to four bytes, and exactly one when it is ASCII |
| Uptime.OneByte | src/fetch/uptime.rs:45 | a string is one byte long exactly when it is a single ASCII character |
| Uptime.TimePrefixShape | src/fetch/uptime.rs:42-51 | the result is never one byte long, ends with the input, and differs from it exactly for a single ASCII character |
| Uptime.TimePrefixIdempotent | src/fetch/uptime.rs:42-51 | prefixing twice is prefixing once |
| Uptime.TimePrefixExamples | src/fetch/uptime.rs:45-50 | "7" becomes "07"; "42" and "" are unchanged |
| Modules.FetchModules.constructor | src/modules/mod.rs:11-13 | a new list is empty |
| Modules.FetchModules.AddModule | src/modules/mod.rs:21-23 | the module is appended at the end, the count grows by one, and the earlier modules keep their order |
| Modules.FetchModules.GetModuleCount | src/modules/mod.rs:40-42 | the count is the length of the list `get_modules` returns |
| Modules.AddInOrder | src/modules/mod.rs:21-32 | modules added one after another are listed in that order |

## Left out

- File reading and writing in `Helio::load`/`create`. `Helio.Helio.Load` starts from the text already read. The default file written first is a data constant. In the source, `create` has already replaced the document with the parsed default before `load` reads the file, so a caller's earlier document never survives `load`; "leaves it as it was" in the `Helio.Helio.Load` row means the state after that replacement.
- `src/main.rs` orchestration, `thread::scope`, and the `{FILL}` padding. The unicode width module that padding needs is not part of this model.
- Everything that reads `/proc`, `/etc`, environment variables or the process tree: all of `src/fetch/*` except `time_prefix`, `src/platform/*`, `src/data/mod.rs`, `src/util/data.rs`, `src/util/terminal/unicode.rs`.
- Floating-point code: `format_gb_str`, `round`, `floor`, `mhz_to_ghz`, `filter_null`, `uptime`, and the memory and CPU fetchers.
- Error display and `exit` in `src/error/mod.rs`. Errors are plain datatypes of kind and line number. Message texts are not modelled, and the parent name in the sub-argument error is dropped.
- Printing: `help_and_exit` and `create_help`, and the diagnostics `process_variables` and `process_case` print for unknown placeholders and modes. `Args.Args.Parse` returns `HelpExit` where the source prints help and exits.
- `Action` callbacks in `src/args/mod.rs`: they are foreign calls.
- `env::args()`: `Args.Args.Parse` takes the command line as a parameter.
- The `idem` map in `parse`: it is written and never read.
- `set_author`, `set_desc`, `set_name`, and the program name `Args::new` reads from the system.
- Args.Args.Parse: the third branch's `stored.values().find(...)` depends on hash-map iteration order. In a well-formed registry every argument it can find is a sub-argument (`ArgsParse.OnlySubArguments`), so the model fails whenever some stored argument has the word as an alias.
- `src/image/*`, `src/config/cache/mod.rs`, `src/version/mod.rs`, `src/util/unicode/mod.rs`.
- `src/modules/module.rs`: a one-field string wrapper, modelled as the datatype `Modules.FetchModule`.
- Lengths and indices in the parser, the lexer, the box and the layout count characters, not UTF-8 bytes. They agree with the source on ASCII text. `Uptime` alone counts bytes, because its one test is on the byte length.
- Case mapping (`Strings.Upper`, `Strings.Lower`) covers ASCII letters only; Rust's full Unicode case mapping is left out.
- Iterator.VariableIterator.constructor: requires a non-empty end marker and a text on which no step hits the reversed slice at `src/variable/iterator.rs:52`. With an empty end marker the source panics or, when the start marker is empty too, never ends. `Iterator.MarkersSafeRun` gives a sufficient condition on the markers alone.
- Creator.Creator.ProcessCase: that the markers never reach the output is shown only on the worked examples (`TemplateExamples.CaseChainExample`). A dangling start marker does reach it, as a literal.
- Helio.Helio.GetBool, Helio.Helio.GetInt, Helio.Helio.GetFilter: require a successful `get_str`, because the source unwraps it and panics otherwise.
- Hyperstr.AsciiCheck: returns the new art instead of appending to a `&mut String`.
- Hyperstr.N: the compilation target is a parameter, not a `cfg` attribute.
- Random.Rng.Randomize: the in-place XORs on the local `seeds` array are modelled as the function `Random.Next` on the four registers. Proofs about 128-bit values held in a local array exceed the verifier's resource limit. The order of the assignments is kept in `Next`.
- Random.Rng.Randomize: the `u8` subtraction `64 - bits` is a precondition (`bits <= 64`). The unchecked `* 5` and `* 9` wrap, as in a release build; see the second row of "## Findings".
- Random.Rng.SetSeed: uses the corrected `reset` (see the first row of "## Findings"); `set_seed` as written, with four equal registers, is `Random.Rng.SetSeedAsWritten`.
- Random.Rng.Rand: requires `min <= max` and a range smaller than all of `usize`, because the source's subtraction and `1 +` would overflow otherwise.
- Random.Rotate: the `i32` rotation is given by its 32 bits, which is all the cast to `u32` keeps.
- That the xoshiro step is invertible (no state other than zero reaches zero) is not proved. Only `Random.ZeroStaysZero` is.
- `seed_get`/`seed_put`: they read and write the `seed` field and are part of `Split`, `Reset` and `SetSeed`.
- Modules.FetchModules.GetModules: it returns the list itself, so it carries no contract of its own; `Modules.AddInOrder` and `Modules.FetchModules.GetModuleCount` state what it returns.

## Findings

| source | as written | input that shows it | evidently intended | confidence | as-written member | corrected member |
|---|---|---|---|---|---|---|
| src/random/mod.rs:41-45 | `reset` saves the seed once and passes that same value to all four `split` calls, so X0..X3 are equal | `set_seed(123456789)` gives four equal registers | four successive SplitMix outputs, each split starting from the seed the last one stored | not executed | Random.Rng.ResetAsWritten, Random.Rng.SetSeedAsWritten | Random.Rng.Reset, Random.Rng.SetSeed |
| src/random/mod.rs:158 | `rotate(seeds[1] * 5, 7) * 9` uses unchecked `u128` multiplication, which panics on overflow in a debug build | after `set_seed(123456789)`, the first `randomize(64)` overflows in `* 9` with reset as written and in `* 5` with reset as meant, so the crate's own `test_randomize` panics | wrapping multiplication, as xoshiro256** and the `overflowing_mul` of `split` use | not executed | Random.StarStarChecked | Random.StarStar |
