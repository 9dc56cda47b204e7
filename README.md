# Worldtree compiler and state store, modelled in Dafny

Worldtree is an engine for interactive fiction built from qualities, storylets and locations.
An author writes a world as YAML. The Rust compiler turns it into a model: it reads YAML events
into nodes, validates the nodes as typed elements, gathers the declared names into a symbol list,
and compiles every expression, template and text into bytecode with a shared string table.
The TypeScript engine keeps the player's state in a store behind a driver interface.

This project models that core and proves what it promises:

- **Shared pieces.** Attributions (where a value came from), problems, the string table and tokens.
- **Symbols.** Name normalisation, the descending symbol list, its prefix matching, and
  `extract`/`require` over the element tree.
- **Expressions.** The lexer, the precedence parser, the normaliser that folds constants, and
  the compiler to instructions.
- **Templates and text.** The template lexer and parser, emphasis resolution (`process_styles`),
  the template compiler, the text lexer and parser, and the serialised text shapes.
- **YAML.** Values and nodes with mark-insensitive comparison, paths, the event stream, and the
  document and stream parsing contexts.
- **Elements.** Every element reader (`from_node`) with the keys it reads, and the element tree.
- **Model builder.** `ModelParser::parse`: symbols, then meta, qualities, storylets and locations,
  threading the problem list through every step.
- **State store.** The state API over a driver, and the in-memory driver with its transactions.

Pure code is modelled as functions and lemmas. Code that loops or updates fields is modelled as
classes and methods, each proved equal to a specification function whose properties are lemmas.

Where the source panics (an index out of bounds, an unsigned underflow, a `u32` overflow in a debug
build), the model returns `Panic` instead of adding a precondition, because ordinary inputs reach
these paths. Several behaviours that look unintended are modelled as written, and lemmas state them:

- `yes`, `true` and `always` lex as the literal false.
- The `random` operator is relabelled as `Either`.
- A folded constant is pushed as the literal 0.
- A normalised `Minimum` is rebuilt as `Maximum`.
- After a symbol matches, end marks are computed over the whole remaining source.
- An `else` is skipped by `len` in the template compiler but by `len + 2` in the expression compiler.
- The `When` arm of the template branch parser is never reached (`TemplateParse.InnerNeverWhen`).
- A symbol with a space can match source whose next word differs (`starts_with`).
- `process_styles` can panic: `i - 1` underflows when a closer is first, a stale `i` can be out of
  bounds after a splice, and later entries are never shifted.
- The template lexer counts UTF-8 bytes and slices the text at byte offsets, as the source does. A stray `]` skips the char
  after it without counting that char's bytes: later text is sliced early, and a slice that falls inside a
  multibyte char panics (`TemplateLexerExamples.StrayBracketMultibyte`, `TemplateLexerExamples.StrayBracketPanics`).
- The meta validation `len() > 0` reports a one-item sequence.
- A one-item root sequence reads `sequence[1]` (`ElementTrees.OneItemRootUnreadable`).

## Model

| member | source | states |
|---|---|---|
| `Attributions.New` | compiler/src/attribution.rs:13-20 | a root attribution keeps the source and marks and has the empty path |
| `Attributions.NewAtKey` | compiler/src/attribution.rs:22-29 | a root attribution at a key has the one-segment path `.key` |
| `Attributions.NewAtIndex` | compiler/src/attribution.rs:31-38 | a root attribution at an index has the one-segment path `[i]` |
| `Attributions.AtKey` | compiler/src/attribution.rs:40-47 | extending by a key keeps the source, appends the `.key` segment and takes the new marks |
| `Attributions.AtIndex` | compiler/src/attribution.rs:49-56 | extending by an index keeps the source, appends the `[i]` segment and takes the new marks |
| `Attributions.AtMarks` | compiler/src/attribution.rs:58-71 | re-attributing keeps source and path; lines add to the base start line, columns are offset only on the first line |
| `Attributions.AtMark` | compiler/src/attribution.rs:73-75 | a single mark is the range from that mark to itself |
| `Attributions.AtKeyPath` | compiler/src/attribution.rs:40-47 | a path spelling a list of segments, extended by a key, spells that list plus the key segment |
| `Attributions.AtIndexPath` | compiler/src/attribution.rs:49-56 | a path spelling a list of segments, extended by an index, spells that list plus the index segment |
| `Attributions.NewAtKeyIsAtKeyOfNew` | compiler/src/attribution.rs:13-47 | `new_at_key` is `new` followed by `at_key` |
| `Attributions.NewAtIndexIsAtIndexOfNew` | compiler/src/attribution.rs:13-56 | `new_at_index` is `new` followed by `at_index` |
| `Attributions.AtMarkOrigin` | compiler/src/attribution.rs:58-75 | the mark at line 0, column 0 names the attribution's own start |
| `Attributions.AtMarksCompose` | compiler/src/attribution.rs:58-71 | re-attributing twice is re-attributing once by the composed marks |
| `Attributions.IndexPathsDiffer` | compiler/src/attribution.rs:49-56 | distinct indices give distinct paths, so sibling attributions never collide |
| `Common.Trim` | compiler/src/element/uri.rs:18 | `str::trim`: the result neither starts nor ends with whitespace and is no longer than the input |
| `Common.TrimBlank` | compiler/src/element/location.rs:34 | a scalar trims to empty exactly when it is all whitespace, the test behind `!scalar.trim().is_empty()` |
| `Common.Lowercase` | compiler/src/element/tag.rs:18 | `to_lowercase` keeps the length and lowers each character |
| `Common.AsciiLowercase` | compiler/src/element/logical.rs:19 | `to_ascii_lowercase` keeps the length and lowers only ASCII capitals |
| `Common.Utf8PrefixMonotone` | compiler/src/expression/lexer.rs:153 | longer character prefixes have longer UTF-8 encodings, so a byte offset names at most one character index |
| `Common.EncodeAppend` | compiler/src/string_table.rs:30 | the UTF-8 encoding of a concatenation is the concatenation of the encodings |
| `Common.EncodeAscii` | compiler/src/string_table.rs:26 | an ASCII string is encoded byte for byte, so its byte length is its character count |
| `Common.NatToString` | compiler/src/attribution.rs:34 | the decimal numeral of a number is non-empty and all digits |
| `Common.DecimalValueOfNatToString` | compiler/src/attribution.rs:34 | reading back the decimal numeral of `n` gives `n` |
| `Common.ParseU32` | compiler/src/element/numeric.rs:19 | `u32::from_str_radix(_, 10)` succeeds only with a value below 2^32 |
| `Common.ParseU32OfNatToString` | compiler/src/element/numeric.rs:19 | the numeral of any `u32` value parses back to that value |
| `StringTables.Find` | compiler/src/string_table.rs:25 | `str::find` returns the first byte offset where the needle occurs, or none when it occurs nowhere |
| `StringTables.StringTable.constructor` | compiler/src/string_table.rs:16-21 | a new table has an empty buffer and no cached addresses |
| `StringTables.StringTable.Put` | compiler/src/string_table.rs:23-37 | `put` returns the cached address, or the first occurrence of the string's bytes, or appends them; the new state is the one `PutSpec` gives |
| `StringTables.PutSpec` | compiler/src/string_table.rs:23-37 | `put` on values: the cached address, or the first occurrence of the bytes in the buffer, or the bytes appended at the end |
| `StringTables.StringTable.GetString` | compiler/src/string_table.rs:39-41 | the whole buffer |
| `StringTables.StringTable.Len` | compiler/src/string_table.rs:43-45 | the buffer's length in bytes |
| `StringTables.EmptyValid` | compiler/src/string_table.rs:16-21 | the empty table is valid: every cached address spells its string |
| `StringTables.PutKeepsValid` | compiler/src/string_table.rs:23-37 | `put` keeps every cached address spelling its string |
| `StringTables.PutAddressSpellsString` | compiler/src/string_table.rs:23-37 | the address `put` returns spans exactly the string's UTF-8 bytes in the buffer and is cached under the string |
| `StringTables.PutOnlyAppends` | compiler/src/string_table.rs:23-37 | `put` only appends to the buffer and never changes an address handed out earlier |
| `StringTables.PutExtends` | compiler/src/string_table.rs:23-37 | every `put` extends the table, whether or not it was valid |
| `StringTables.ExtendsTrans` | compiler/src/string_table.rs:23-37 | extending is transitive, so a run of `put`s keeps every earlier address |
| `StringTables.PutTwice` | compiler/src/string_table.rs:24 | putting the same string twice returns the same address and changes nothing |
| `StringTables.PutReusesFirstOccurrence` | compiler/src/string_table.rs:25-27 | a string already spelled in the buffer is not appended; it gets its first occurrence |
| `StringTables.PutAppendsNewString` | compiler/src/string_table.rs:28-33 | a string found nowhere is appended at the old end of the buffer |
| `StringTables.RiverExample` | compiler/src/string_table.rs:48-67 | the table's own example: addresses 0-16, 16-31, 0-16 again, then 0-7 for a reused prefix |
| `Problems.NewWarning` | compiler/src/problem.rs:24-31 | a warning carries its message and attribution and no context |
| `Problems.NewFatal` | compiler/src/problem.rs:33-40 | a fatal carries its message and attribution and no context |
| `Problems.WithContext` | compiler/src/problem.rs:42-52 | attaching a context keeps level, message and attribution and sets the context |
| `Problems.WarningIsFatalAtOtherLevel` | compiler/src/problem.rs:24-40 | a warning and a fatal at the same place with the same message differ only in level |
| `Problems.WithContextReplaces` | compiler/src/problem.rs:42-52 | attaching a context replaces any context attached before |
| `Problems.AddsFatalsTrans` | compiler/src/problem.rs:33-40 | appending fatals to the problem list twice is appending fatals once |
| `Problems.FatalsAdded` | compiler/src/problem.rs:33-40 | appending only fatals keeps the old list as a prefix |
| `Problems.FatalAdded` | compiler/src/problem.rs:33-40 | appending one fatal keeps the old list as a prefix |
| `ExpressionTokens.Rank` | compiler/src/expression/token.rs:22-71 | each operator's position in declaration order, below the number of variants |
| `ExpressionTokens.RankInjective` | compiler/src/expression/token.rs:22-71 | distinct operators have distinct positions |
| `ExpressionTokens.AtLeastTotal` | compiler/src/expression/token.rs:22 | the derived operator order is total and antisymmetric |
| `ExpressionTokens.RankChain` | compiler/src/expression/token.rs:25-71 | the operator groups appear in the declared order: branch, phrasal, range, conjunction, comparison, arithmetic, atomic |
| `ExpressionTokens.PhrasalRank` | compiler/src/expression/token.rs:34-44 | an operator is phrasal exactly when it lies between `then` and `to` in the order |
| `ExpressionTokens.ComparisonRank` | compiler/src/expression/token.rs:53-60 | an operator is a comparison exactly when it lies between `or` and `+` in the order |
| `ExpressionTokens.ArithmeticRank` | compiler/src/expression/token.rs:62-66 | an operator is arithmetic exactly when it lies between `<=` and `not` in the order |
| `ExpressionTokens.Display` | compiler/src/expression/token.rs:73-109 | every operator has a non-empty spelling |
| `ExpressionTokens.DisplayRoundTrip` | compiler/src/expression/token.rs:73-109 | every operator is recovered from its spelling |
| `ExpressionTokens.DisplayInjective` | compiler/src/expression/token.rs:73-109 | no two operators share a spelling |
| `ExpressionTokens.SerializedName` | compiler/src/expression/token.rs:22-24 | the serialised camelCase variant name has at least two characters |
| `ExpressionTokens.SerializedNameOfWords` | compiler/src/expression/token.rs:22-109 | an operator serialises to its own spelling exactly when that spelling is a word, not punctuation |
| `ExpressionTokens.SerializeAtom` | compiler/src/expression/token.rs:12-20 | references serialise as strings, numbers as themselves, truth values as 1 or 0 |
| `ExpressionTokens.SerializeAtomRoundTrip` | compiler/src/expression/token.rs:12-20 | serialised atoms read back as the same atom, except a truth value, which reads back as the number 1 or 0 |
| `Symbols.Collapse` | compiler/src/symbol.rs:216-221 | replacing each whitespace run by one space keeps no whitespace but single spaces, and keeps a leading or trailing run as one space |
| `Symbols.Normalize` | compiler/src/symbol.rs:220-222 | `normalize` gives a trimmed, collapsed, lower-cased name |
| `Symbols.ToLowerKeepsSpacing` | compiler/src/symbol.rs:221 | lower-casing never turns a character into or out of whitespace, and is idempotent |
| `Symbols.LowercaseNormalized` | compiler/src/symbol.rs:221 | lower-casing a trimmed, collapsed text gives a normalised name |
| `Symbols.CollapseNormalized` | compiler/src/symbol.rs:221 | collapsing an already collapsed text changes nothing |
| `Symbols.NormalizeCollapsed` | compiler/src/symbol.rs:220-222 | a collapsed name normalises by lower-casing alone |
| `Symbols.NormalizeIdempotent` | compiler/src/symbol.rs:220-222 | normalising a normalised name changes nothing |
| `Symbols.LexLessIrreflexive` | compiler/src/symbol.rs:75 | the string order never puts a name before itself |
| `Symbols.LexLessTransitive` | compiler/src/symbol.rs:75 | the string order is transitive |
| `Symbols.LexLessTotal` | compiler/src/symbol.rs:75 | any two distinct names are ordered one way or the other |
| `Symbols.PrefixLexLess` | compiler/src/symbol.rs:75-76 | a proper prefix sorts before the name it begins, so after `reverse` it comes later |
| `Symbols.InsertDescending` | compiler/src/symbol.rs:86-87 | inserting into the descending list adds exactly that element |
| `Symbols.InsertDescendingSorted` | compiler/src/symbol.rs:86-87 | inserting a new element keeps the list strictly descending |
| `Symbols.SortDescending` | compiler/src/symbol.rs:75-76 | sorting then reversing is a permutation of the list |
| `Symbols.SortDescendingSorted` | compiler/src/symbol.rs:75-76 | sorting then reversing a list without duplicates gives a strictly descending list |
| `Symbols.HeadGreatest` | compiler/src/symbol.rs:75-76 | the head of a strictly descending list is greater than every later element |
| `Symbols.DescendingUnique` | compiler/src/symbol.rs:75-76 | two strictly descending lists with the same elements are the same list, so the sort's result does not depend on the input order |
| `Symbols.MatchFrom` | compiler/src/symbol.rs:106-150 | the inner loop of `starts_with` never consumes more than the source |
| `Symbols.FirstMatch` | compiler/src/symbol.rs:105-152 | the first symbol in list order that matches, with what it consumes |
| `Symbols.FirstMatchNone` | compiler/src/symbol.rs:105-152 | `starts_with` returns none exactly when no symbol of the list matches |
| `Symbols.FirstMatchIsEarliest` | compiler/src/symbol.rs:105-152 | the symbol returned is the earliest matching one in the list |
| `Symbols.LongerSymbolWins` | compiler/src/symbol.rs:75-76 | longest match: in a descending list, a matching symbol that extends another is tried first |
| `Symbols.MatchThrough` | compiler/src/symbol.rs:111-145 | reading part of a normalised symbol's own text consumes exactly that text |
| `Symbols.LeadingWhitespace` | compiler/src/symbol.rs:112-116 | the length of the leading whitespace run |
| `Symbols.MatchEmptySymbol` | compiler/src/symbol.rs:142-144 | once the symbol is used up, only the whitespace that follows is consumed |
| `Symbols.SymbolMatchesPrefix` | compiler/src/symbol.rs:104-153 | a normalised symbol matches its own text followed by anything, consuming it and the whitespace after it |
| `Symbols.SymbolNotMatchedByPrefix` | compiler/src/symbol.rs:146-150 | a source that stops inside the symbol does not match it |
| `Symbols.WhitespaceRunMatchesSpace` | compiler/src/symbol.rs:112-131 | a whitespace run of any length and kind in the source matches the symbol's single space |
| `Symbols.MatchIgnoresAsciiCase` | compiler/src/symbol.rs:118 | matching only looks at ASCII-lowered source characters |
| `Symbols.StrictlyDescendingNoDuplicates` | compiler/src/symbol.rs:75-76 | a strictly descending list holds no duplicates |
| `Symbols.PushedValid` | compiler/src/symbol.rs:81-89 | `push` keeps the list normalised and strictly descending and adds exactly the normalised name when missing |
| `Symbols.PushedContains` | compiler/src/symbol.rs:81-94 | after `push`, `contains` holds for the name, and pushing it again changes nothing |
| `Symbols.SortKeepsDescending` | compiler/src/symbol.rs:86-87 | sorting an already descending list gives it back |
| `Symbols.SymbolList.constructor` | compiler/src/symbol.rs:13-17 | a new list is empty |
| `Symbols.SymbolList.FromSorted` | compiler/src/symbol.rs:206-213 | the list `build` produces holds exactly the sorted symbols |
| `Symbols.SymbolList.Push` | compiler/src/symbol.rs:81-89 | `push` leaves the list its specification gives: unchanged when the normal form is present, else re-sorted with it |
| `Symbols.SymbolList.Contains` | compiler/src/symbol.rs:91-94 | `contains` holds exactly when the normal form is in the list |
| `Symbols.SymbolList.StartsWith` | compiler/src/symbol.rs:104-153 | `starts_with` returns the first matching symbol and the UTF-8 bytes consumed, or none |
| `Symbols.MatchSymbol` | compiler/src/symbol.rs:106-150 | the loop over one symbol returns the UTF-8 length of the characters `MatchFrom` consumes, or none when it fails |
| `Symbols.SymbolListBuilder.Push` | compiler/src/symbol.rs:198-204 | the builder's `push` adds the normal form exactly when it is missing and keeps the names distinct |
| `Symbols.SymbolListBuilder.Build` | compiler/src/symbol.rs:206-213 | `build` returns a fresh list holding the names sorted descending |
| `Symbols.BuiltValid` | compiler/src/symbol.rs:206-213 | a builder of distinct normalised names builds a valid list |
| `Symbols.RiverList` | compiler/src/symbol.rs:162 | built from "a river" and "a river in space", the longer name comes first |
| `Symbols.PartialNameMatchesNothing` | compiler/src/symbol.rs:163 | "a riv" matches no symbol |
| `Symbols.ExactShortName` | compiler/src/symbol.rs:164 | "a river" matches the shorter symbol with 7 bytes |
| `Symbols.ExactLongName` | compiler/src/symbol.rs:165 | "a river in space" matches the longer symbol with 16 bytes |
| `Symbols.ShorterNameWins` | compiler/src/symbol.rs:166 | "a river in time" falls back to "a river" with 8 bytes, counting the space read past it |
| `Symbols.CapitalNameNormalizes` | compiler/src/symbol.rs:171 | the name "A river" is stored as "a river" |
| `Symbols.CaseInsensitiveName` | compiler/src/symbol.rs:170-173 | "a River" finds "a river" with 7 bytes |
| `Symbols.CountsUtf8Bytes` | compiler/src/symbol.rs:182-185 | lengths are UTF-8 bytes: "résumé" matches itself with 8 bytes |
| `SymbolNames.Declarations` | compiler/src/symbol.rs:64-65 | one declaration, keyed by its normal form, per gathered name |
| `SymbolNames.DistinctSpec` | compiler/src/symbol.rs:61-73 | every name is either kept or reported; the problems found before are kept and only Fatals are added |
| `SymbolNames.DeclaredFirst` | compiler/src/symbol.rs:61-73 | a symbol is declared exactly when it has a first declaration |
| `SymbolNames.DistinctKeepsFirst` | compiler/src/symbol.rs:61-73 | the kept symbols are the distinct symbols declared, each kept once and remembered at its first declaration |
| `SymbolNames.DeclarationsNormalized` | compiler/src/symbol.rs:65 | every kept symbol is a normal form |
| `SymbolNames.DeclaresName` | compiler/src/symbol.rs:64-65 | a symbol is declared exactly when some gathered name normalises to it |
| `SymbolNames.DuplicateReported` | compiler/src/symbol.rs:66-68 | a name declared again adds one Fatal whose context is the first declaration, and keeps no new symbol |
| `SymbolNames.KeepFirst` | compiler/src/symbol.rs:61-73 | the loop keeps the symbols and problems `DistinctSpec` gives |
| `SymbolNames.Require` | compiler/src/symbol.rs:96-102 | `require` always returns the normal form and adds one Fatal at the name exactly when the list does not hold it |
| `SymbolExtract.ExtractValid` | compiler/src/symbol.rs:23-79 | `extract` yields a normalised, strictly descending list holding exactly the normal forms of the declared names, with one Fatal per repeat |
| `SymbolExtract.Extract` | compiler/src/symbol.rs:23-79 | `extract` returns a fresh list and the problems `ExtractSpec` gives |
| `SymbolExtract.GatherNames` | compiler/src/symbol.rs:25-59 | names are gathered in order: qualities and their values, storylets, then locations and their storylets |
| `SymbolExtract.GatherQualities` | compiler/src/symbol.rs:27-39 | each quality's name, then the names of its values |
| `SymbolExtract.QualityNamesOf` | compiler/src/symbol.rs:28-38 | one quality's name, then its values' names |
| `SymbolExtract.AppendValueNames` | compiler/src/symbol.rs:33-37 | the values' names are appended in order |
| `SymbolExtract.AppendStoryletNames` | compiler/src/symbol.rs:41-45 | the storylets' names are appended in order |
| `SymbolExtract.GatherLocations` | compiler/src/symbol.rs:47-59 | each location's name, then the names of its storylets |
| `SymbolExtract.LocationNamesOf` | compiler/src/symbol.rs:48-58 | one location's name, then its storylets' names |
| `SymbolExtract.RequireDeclared` | compiler/src/symbol.rs:96-102 | any declared name, however spaced or cased, passes `require` against the extracted list without a problem |
| `ExpressionLexer.Step` | compiler/src/expression/lexer.rs:128-135 | a newline starts the next line at column 0; any other character advances the column on the same line |
| `ExpressionLexer.MarkAfterAppend` | compiler/src/expression/lexer.rs:161-168 | the mark after `a + b` is the mark after `a`, then after `b` |
| `ExpressionLexer.MarkAfterCounts` | compiler/src/expression/lexer.rs:161-168 | each newline adds one line; without a newline the column grows by the UTF-8 length |
| `ExpressionLexer.Run` | compiler/src/expression/lexer.rs:144-151 | a run of one character class stays inside the text |
| `ExpressionLexer.RunIsMaximal` | compiler/src/expression/lexer.rs:177-184 | a run is the longest one: every character in it is in the class and the next is not |
| `ExpressionLexer.TrimRun` | compiler/src/expression/lexer.rs:186 | trimming an alphanumeric run leaves it unchanged |
| `ExpressionLexer.Punctuation` | compiler/src/expression/lexer.rs:212-297 | a punctuation token takes at least one character and stays inside the text |
| `ExpressionLexer.ScanNumeral` | compiler/src/expression/lexer.rs:139-155 | a digit run lexes to a numeric literal, consuming at least one character |
| `ExpressionLexer.ScanWord` | compiler/src/expression/lexer.rs:157-210 | a word always yields a token and consumes characters unless it is a symbol match |
| `ExpressionLexer.ScanPunctuation` | compiler/src/expression/lexer.rs:212-299 | a punctuation scan always yields a token and consumes at least one character |
| `ExpressionLexer.ScanToken` | compiler/src/expression/lexer.rs:139-299 | a scan at a non-whitespace character yields a token, when it does not panic |
| `ExpressionLexer.ScanFrom` | compiler/src/expression/lexer.rs:121-303 | `advance` yields no token exactly when only whitespace is left, and then consumes it all and ends at the mark after it |
| `ExpressionLexer.NextSpec` | compiler/src/expression/lexer.rs:105-119 | `next` leaves a suffix of the text; its token starts at the cursor's mark |
| `ExpressionLexer.NextOperatorSpec` | compiler/src/expression/lexer.rs:85-103 | `next_operator` takes the token only when it is an operator at least `outer`, exactly as `next` would; else the cursor stays put |
| `ExpressionLexer.MatchOperatorSpec` | compiler/src/expression/lexer.rs:51-70 | `match_operator` takes the token only when it is exactly the operator, exactly as `next` would; else the cursor stays put |
| `ExpressionLexer.PeekIsNext` | compiler/src/expression/lexer.rs:72-83 | `peek` returns the token `next` would, and panics exactly when `next` does |
| `ExpressionLexer.NextAtEnd` | compiler/src/expression/lexer.rs:302 | with only whitespace left, `next` returns nothing and moves to the end |
| `ExpressionLexer.NoPanicOnWhitespace` | compiler/src/expression/lexer.rs:127-137 | skipping whitespace never panics |
| `ExpressionLexer.NeverTrue` | compiler/src/expression/lexer.rs:189 | lexing never produces a true literal: the affirmative words lex to false, as written |
| `ExpressionLexer.WordNeverTrue` | compiler/src/expression/lexer.rs:186-209 | a word scan never yields a true literal |
| `ExpressionLexer.ScanWordToken` | compiler/src/expression/lexer.rs:158-209 | a word scan yields the matched symbol's reference, else the keyword of the lower-cased run |
| `ExpressionLexer.KeywordNeverTrue` | compiler/src/expression/lexer.rs:187-209 | no word is a true literal |
| `ExpressionLexer.TruthWords` | compiler/src/expression/lexer.rs:188-189 | "yes", "true", "always", "no", "false" and "never" all lex to false |
| `ExpressionLexer.KeywordOfDisplay` | compiler/src/expression/lexer.rs:190-207 | each keyword operator's own spelling lexes back to it |
| `ExpressionLexer.NeverToOrFrom` | compiler/src/expression/lexer.rs:187-209 | `to` and `from` are never lexed, since no word or punctuation gives them |
| `ExpressionLexer.WordNeverToOrFrom` | compiler/src/expression/lexer.rs:187-209 | a word scan never yields `to` or `from` |
| `ExpressionLexer.KeywordNeverToOrFrom` | compiler/src/expression/lexer.rs:187-209 | no keyword is `to` or `from` |
| `ExpressionLexer.PunctuationOfDisplay` | compiler/src/expression/lexer.rs:214-297 | each punctuation operator's own spelling lexes back to it, taking all of it |
| `ExpressionLexer.EqualsAbsorbed` | compiler/src/expression/lexer.rs:222-295 | "!=", ">=", "<=" and "=" swallow any further '=' |
| `ExpressionLexer.RunToEnd` | compiler/src/expression/lexer.rs:144-151 | a run over characters all in the class reaches the end of the text |
| `ExpressionLexer.NumeralRoundTrip` | compiler/src/expression/lexer.rs:139-155 | a numeral below 2^32 lexes to its value; one at or above 2^32 panics at the `unwrap` |
| `ExpressionLexer.NumeralNext` | compiler/src/expression/lexer.rs:105-119 | `next` on a numeral below 2^32 returns its literal and consumes the whole numeral |
| `ExpressionLexer.SymbolEndMark` | compiler/src/expression/lexer.rs:158-171 | a symbol match ends the token after the symbol, but its end mark is the mark after the whole remaining text |
| `ExpressionLexer.SymbolEndMarkExample` | compiler/src/expression/lexer.rs:158-171 | in "a", newline, "b" the token "a" already ends on the next line |
| `ExpressionLexer.ExpressionLex.Lex` | compiler/src/expression/lexer.rs:24-31 | `lex` starts a cursor at line 0, column 0 |
| `ExpressionLexer.ExpressionLex.LexAtMark` | compiler/src/expression/lexer.rs:33-40 | `lex_at_mark` starts a cursor at the given mark |
| `ExpressionLexer.ExpressionLex.CurrentMark` | compiler/src/expression/lexer.rs:44-49 | the mark of the cursor's first character |
| `ExpressionLexer.ExpressionLex.Advance` | compiler/src/expression/lexer.rs:121-303 | the scanning loop computes `ScanFrom`'s result without moving the cursor |
| `ExpressionLexer.ExpressionLex.Next` | compiler/src/expression/lexer.rs:105-119 | `next` moves the cursor to the state `NextSpec` gives, or panics leaving it unchanged |
| `ExpressionLexer.ExpressionLex.Peek` | compiler/src/expression/lexer.rs:72-83 | `peek` returns the token `next` would without moving the cursor |
| `ExpressionLexer.ExpressionLex.NextOperator` | compiler/src/expression/lexer.rs:85-103 | `next_operator` moves the cursor as `NextOperatorSpec` gives |
| `ExpressionLexer.ExpressionLex.MatchOperator` | compiler/src/expression/lexer.rs:51-70 | `match_operator` moves the cursor as `MatchOperatorSpec` gives |
| `ExpressionLexer.ScanWordAt` | compiler/src/expression/lexer.rs:157-210 | the word branch computes `ScanWord` |
| `ExpressionLexer.ReferenceAt` | compiler/src/expression/lexer.rs:158-171 | a matched symbol's byte length is turned back into characters, and the token ends at the mark after the whole text |
| `ExpressionLexer.KeywordAt` | compiler/src/expression/lexer.rs:173-209 | a word that is no symbol is the alphanumeric run read as a keyword |
| `ExpressionLexer.ScanNumeralAt` | compiler/src/expression/lexer.rs:139-155 | the numeral branch computes `ScanNumeral` |
| `ExpressionLexer.ScanPunctuationAt` | compiler/src/expression/lexer.rs:212-299 | the punctuation branch computes `ScanPunctuation` |
| `ExpressionLexer.RunLength` | compiler/src/expression/lexer.rs:144-151 | the inner scanning loop computes the longest run |
| `ExpressionLexer.MarkAfterRest` | compiler/src/expression/lexer.rs:161-168 | the loop over the rest of the text computes the mark after it |
| `ExpressionLexer.CharIndex` | compiler/src/expression/lexer.rs:170 | a byte offset inside the text names exactly one character index |
| `ExpressionParser.FollowsTrans` | compiler/src/expression/parser.rs:89-309 | the parser's guarantee composes: each routine only consumes input, only appends Fatals and builds operations with operands |
| `ExpressionParser.Chain` | compiler/src/expression/parser.rs:229-240 | a chaining operator takes `left` as first operand, and a right operand of the same operator flattens into one operation |
| `ExpressionParser.CommaJoin` | compiler/src/expression/parser.rs:250-256 | after a comma an operation on the right takes `left` as first operand; an atom pairs with `left` under `and` |
| `ExpressionParser.Relabel` | compiler/src/expression/parser.rs:127-188 | a phrasal prefix keeps the operands, and no `and`/`or` (nor, under `maximum`/`minimum`, `either`/`between`) survives it |
| `ExpressionParser.ParseRightSpec` | compiler/src/expression/parser.rs:89-309 | `parse_right` only consumes input, only appends Fatals, and builds operations with at least one operand |
| `ExpressionParser.ContinueSpec` | compiler/src/expression/parser.rs:204-308 | the operator loop runs only after an operand |
| `ExpressionParser.PrefixSpec` | compiler/src/expression/parser.rs:94-193 | the prefix dispatch keeps the parser's guarantee |
| `ExpressionParser.UnarySpec` | compiler/src/expression/parser.rs:112-192 | `in`, the wrapping prefixes and the invalid ones keep the parser's guarantee |
| `ExpressionParser.Wrapped` | compiler/src/expression/parser.rs:112-188 | `not`/`unless` negate the operand, phrasal prefixes relabel it, and the result is well formed |
| `ExpressionParser.WrapSpec` | compiler/src/expression/parser.rs:112-188 | a wrapping prefix parses its operand at its own rank, keeping the parser's guarantee |
| `ExpressionParser.InvalidPrefixSpec` | compiler/src/expression/parser.rs:189-192 | an operator that is no prefix adds a Fatal and the operand is parsed as usual |
| `ExpressionParser.GroupSpec` | compiler/src/expression/parser.rs:96-105 | `( inner )` keeps the inner parse, with a Fatal at the `(` when the `)` is missing |
| `ExpressionParser.LocationSpec` | compiler/src/expression/parser.rs:119-126 | `in` gives a parse only for one bare reference; anything else adds a Fatal and gives none |
| `ExpressionParser.InfixSpec` | compiler/src/expression/parser.rs:204-308 | the operator loop always returns an operand and keeps the parser's guarantee |
| `ExpressionParser.Combined` | compiler/src/expression/parser.rs:209-276 | comparison, chaining, comma and `to` operators build well-formed operations; `to` builds `between` |
| `ExpressionParser.BinarySpec` | compiler/src/expression/parser.rs:210-276 | an infix operator's right operand is parsed at the operator's own rank |
| `ExpressionParser.InfixStepSpec` | compiler/src/expression/parser.rs:205-302 | one pass of the loop keeps the parser's guarantee; an operator that is no infix adds a Fatal and stops the loop |
| `ExpressionParser.ElseKeywordSpec` | compiler/src/expression/parser.rs:280-284 | the optional commas around `else` only consume input |
| `ExpressionParser.ElseSpec` | compiler/src/expression/parser.rs:280-284 | a missing `else` adds a Fatal at the `then` and parsing goes on |
| `ExpressionParser.Conditional` | compiler/src/expression/parser.rs:286 | `then` builds an operation of exactly three operands |
| `ExpressionParser.ThenSpec` | compiler/src/expression/parser.rs:278-293 | `left then middle [,] else [,] right` keeps the parser's guarantee |
| `ExpressionParser.Parse.constructor` | compiler/src/expression/parser.rs:61-62 | each parse starts with an empty problem list |
| `ExpressionParser.Parse.ParseRight` | compiler/src/expression/parser.rs:89-309 | `parse_right` returns the parse, cursor and problems `ParseRightSpec` gives |
| `ExpressionParser.Parse.Operand` | compiler/src/expression/parser.rs:90-202 | the first-token match of `parse_right` realises its specification |
| `ExpressionParser.Parse.Unrecognized` | compiler/src/expression/parser.rs:195-198 | an unrecognised first token adds a Fatal and parsing goes on |
| `ExpressionParser.Parse.Prefixed` | compiler/src/expression/parser.rs:94-194 | a prefix operator as first token realises `parse_right`'s specification |
| `ExpressionParser.Parse.Prefix` | compiler/src/expression/parser.rs:95-193 | the prefix dispatch realises `PrefixSpec` |
| `ExpressionParser.Parse.Unary` | compiler/src/expression/parser.rs:112-192 | the single-operand prefixes realise `UnarySpec` |
| `ExpressionParser.Parse.Wrap` | compiler/src/expression/parser.rs:112-188 | the wrapping prefixes realise `WrapSpec` |
| `ExpressionParser.Parse.InvalidPrefix` | compiler/src/expression/parser.rs:189-192 | an invalid prefix realises `InvalidPrefixSpec` |
| `ExpressionParser.Parse.Group` | compiler/src/expression/parser.rs:96-105 | a parenthesised group realises `GroupSpec` |
| `ExpressionParser.Parse.Location` | compiler/src/expression/parser.rs:119-126 | `in place` realises `LocationSpec` |
| `ExpressionParser.Parse.Climb` | compiler/src/expression/parser.rs:204-308 | the `while let` operator loop realises `InfixSpec` |
| `ExpressionParser.Parse.InfixStep` | compiler/src/expression/parser.rs:205-302 | one pass of the loop realises `InfixStepSpec` |
| `ExpressionParser.Parse.Binary` | compiler/src/expression/parser.rs:210-276 | an infix operator's right operand realises `BinarySpec` |
| `ExpressionParser.Parse.ThenBranch` | compiler/src/expression/parser.rs:278-293 | the `then` branch realises `ThenSpec` |
| `ExpressionParser.Parse.SkipElse` | compiler/src/expression/parser.rs:280-284 | the `[,] else [,]` skip realises `ElseSpec` |
| `ExpressionParser.ExpressionSpec` | compiler/src/expression/parser.rs:60-64 | `parse_expression` starts at the loosest rank with no problems, and every problem it reports is Fatal |
| `ExpressionParser.TagSpec` | compiler/src/expression/parser.rs:66-81 | a `when` tag holds a well-formed condition, and `end` adds no problem and consumes nothing |
| `ExpressionParser.ParseExpression` | compiler/src/expression/parser.rs:60-64 | `parse_expression` returns what `ExpressionSpec` gives |
| `ExpressionParser.ParseTag` | compiler/src/expression/parser.rs:66-81 | `parse_tag` returns what `TagSpec` gives |
| `ExpressionParser.ParseSource` | compiler/src/expression/parser.rs:83-85 | `parse` lexes the whole source from line 0, column 0 |
| `ExpressionParser.BlankParsesToNothing` | compiler/src/expression/parser.rs:200-202 | blank input parses to nothing, adds no problem and leaves the cursor at the end |
| `ExpressionParser.BlankTag` | compiler/src/expression/parser.rs:67-68 | a blank tag parses to nothing, with no problem |
| `ExpressionParser.TagEnd` | compiler/src/expression/parser.rs:69 | a tag whose first token is `end` is the end tag, with no problem, the lexer left where it was |
| `ExpressionParser.TagElse` | compiler/src/expression/parser.rs:70-74 | a tag whose first token is `else` is the else tag of the expression after it, with that expression's problems; it panics exactly when that parse does |
| `ExpressionParser.TagWhen` | compiler/src/expression/parser.rs:75-78 | any other first token: the tag is a when tag exactly when the whole tag parses to an expression, which is its condition; never an else or end tag; the expression's problems |
| `ExpressionParser.EndWordTag` | compiler/src/expression/parser.rs:66-81 | `{end}`, when no symbol matches `end`, is the end tag with no problem |
| `ExpressionParser.NumeralParses` | compiler/src/expression/parser.rs:60-64 | a numeral below 2^32 parses to its value with no problem |
| `ExpressionParser.NumeralOperand` | compiler/src/expression/parser.rs:93 | a numeral alone is an operand whatever the surrounding rank |
| `ExpressionParser.AtomFirst` | compiler/src/expression/parser.rs:93 | an operand that starts with an atom continues with the operator loop after it |
| `ExpressionParser.InfixAtEnd` | compiler/src/expression/parser.rs:205 | at the end of the input the operator loop returns its operand unchanged |
| `ExpressionParser.OperatorToken` | compiler/src/expression/parser.rs:205 | a one-character operator is taken by the loop exactly when it ranks at least `outer` |
| `ExpressionParser.OperandStep` | compiler/src/expression/parser.rs:93-204 | an atom as first token hands over to the operator loop with the atom as left operand |
| `ExpressionParser.InfixStop` | compiler/src/expression/parser.rs:205 | the loop stops when `next_operator` takes nothing |
| `ExpressionParser.ChainStep` | compiler/src/expression/parser.rs:223-244 | the loop goes on with the operation a chaining operator builds |
| `ExpressionParser.DigitChainDigit` | compiler/src/expression/parser.rs:223-244 | `d o e` with a chaining operator parses to the operation on the two digits |
| `ExpressionParser.RightNests` | compiler/src/expression/parser.rs:229-240 | in `d o e p f`, with `p` ranked at least `o`, the right operand of `o` is the whole of `e p f` |
| `ExpressionParser.TighterOnTheRight` | compiler/src/expression/parser.rs:630-642 | `1+2*4` parses to `1 + (2 * 4)` with no problem |
| `ExpressionParser.ChainFlattens` | compiler/src/expression/parser.rs:233-235 | `1+2+4` flattens into one `+` with three operands |
| `ExpressionParser.ChainOfSame` | compiler/src/expression/parser.rs:233-235 | chaining onto an operation of the same operator prepends the left operand |
| `ExpressionParser.LooserFollows` | compiler/src/expression/parser.rs:205 | in `d o e p ...`, with `p` looser than `o`, the operand of `o` stops at `e` and the outer loop goes on from `p` |
| `ExpressionParser.ChainedLastDigit` | compiler/src/expression/parser.rs:223-244 | a trailing chaining operator and digit add one more link to the chain |
| `ExpressionParser.LeftNests` | compiler/src/expression/parser.rs:204-308 | in `d o e p f`, with `p` looser than `o`, `d o e` becomes the left operand of `p` |
| `ExpressionParser.LooserOnTheRight` | compiler/src/expression/parser.rs:646-657 | `1*2+4` parses to `(1 * 2) + 4` with no problem |
| `ExpressionNormalizer.LiteralTruth` | compiler/src/expression/parser.rs:336-349 | an operand has a truth exactly when it is a numeric or logical literal |
| `ExpressionNormalizer.Normalize` | compiler/src/expression/parser.rs:313-611 | atoms are kept; a folded operation keeps its operator (`minimum` comes back as `maximum`); `not` without an operand panics; `not` of a literal is its negation; other operations keep their operator |
| `ExpressionNormalizer.JunctionFold` | compiler/src/expression/parser.rs:331-378 | a literal of the absorbing truth decides `and` (false) or `or` (true) |
| `ExpressionNormalizer.PlusFold` | compiler/src/expression/parser.rs:379-404 | `+` stays `+` when operands are kept |
| `ExpressionNormalizer.MultiplyFold` | compiler/src/expression/parser.rs:405-433 | `*` stays `*` when operands are kept |
| `ExpressionNormalizer.Close` | compiler/src/expression/parser.rs:467-474 | the end of `-` and `/` keeps the operator when operands are kept |
| `ExpressionNormalizer.MinusFold` | compiler/src/expression/parser.rs:434-475 | `-` stays `-` when operands are kept |
| `ExpressionNormalizer.DivideFold` | compiler/src/expression/parser.rs:476-519 | `/` stays `/` when operands are kept |
| `ExpressionNormalizer.MaximumFold` | compiler/src/expression/parser.rs:520-549 | `maximum` stays `maximum` when operands are kept |
| `ExpressionNormalizer.MinimumFold` | compiler/src/expression/parser.rs:550-599 | `minimum` with operands left over is rebuilt as `maximum`, as written |
| `ExpressionNormalizer.OperandsFold` | compiler/src/expression/parser.rs:600-607 | any other operation keeps its operator and normalises each operand |
| `ExpressionNormalizer.NormalizeKeepsTruth` | compiler/src/expression/parser.rs:313-378 | on literals, references, `and`, `or` and `not`, normalising never panics and keeps the truth value in every state |
| `ExpressionNormalizer.JunctionKeepsTruth` | compiler/src/expression/parser.rs:331-378 | the `and`/`or` loop keeps the truth of the kept operands joined with the rest |
| `ExpressionNormalizer.LiteralTruthIsTruth` | compiler/src/expression/parser.rs:336-349 | a literal's truth is its value, a number being true when positive |
| `ExpressionNormalizer.JoinTruth` | compiler/src/expression/parser.rs:331-378 | the truth of `and`/`or` with an operand dropped from the middle, joined back with that operand |
| `ExpressionNormalizer.JunctionAbsorbs` | compiler/src/expression/parser.rs:336-348 | an operand normalising to the absorbing literal decides `and`/`or`, unless a panic comes first |
| `ExpressionNormalizer.JunctionFoldAbsorbs` | compiler/src/expression/parser.rs:333-352 | the same, from any operand of the loop on |
| `ExpressionNormalizer.MultiplyByZero` | compiler/src/expression/parser.rs:411-421 | a product with an operand normalising to 0 or false is 0, unless a panic comes first |
| `ExpressionNormalizer.MultiplyFoldByZero` | compiler/src/expression/parser.rs:408-424 | the same, from any operand of the loop on |
| `ExpressionNormalizer.Largest` | compiler/src/expression/parser.rs:526-530 | the largest of the numbers, or 0 for none |
| `ExpressionNormalizer.Smallest` | compiler/src/expression/parser.rs:556-567 | the smallest of a non-empty list |
| `ExpressionNormalizer.Difference` | compiler/src/expression/parser.rs:440-446 | subtracting each number in turn succeeds exactly when the sum is at most the start, and leaves the start less the sum |
| `ExpressionNormalizer.MaximumOfLiterals` | compiler/src/expression/parser.rs:520-549 | `maximum` over literals is their largest value, or 0 for none |
| `ExpressionNormalizer.MaximumFoldLiterals` | compiler/src/expression/parser.rs:523-540 | the `maximum` loop over literals keeps the largest so far |
| `ExpressionNormalizer.MinimumOfLiterals` | compiler/src/expression/parser.rs:550-599 | `minimum` over literals is 0 when one of them is 0, else their smallest value |
| `ExpressionNormalizer.NormalizeMinimum` | compiler/src/expression/parser.rs:550-599 | `minimum` folds from the first operand with no constant |
| `ExpressionNormalizer.MinimumFoldLiterals` | compiler/src/expression/parser.rs:553-586 | the `minimum` loop over literals keeps the smallest so far |
| `ExpressionNormalizer.MinOfThree` | compiler/src/expression/parser.rs:561-567 | folding two values into one leading value keeps the smallest |
| `ExpressionNormalizer.PlusOfLiterals` | compiler/src/expression/parser.rs:379-404 | `+` over literals with a positive sum gives `+` of the single literal 0, as written |
| `ExpressionNormalizer.PlusFoldLiterals` | compiler/src/expression/parser.rs:382-395 | the `+` loop over literals adds them into the constant |
| `ExpressionNormalizer.MinusOfLiterals` | compiler/src/expression/parser.rs:434-475 | `-` over literals is the first less the others, and panics when that goes below 0 |
| `ExpressionNormalizer.MinusFoldLiterals` | compiler/src/expression/parser.rs:437-466 | the `-` loop over literals subtracts them from the constant |
| `ExpressionNormalizer.DivideOfLiterals` | compiler/src/expression/parser.rs:476-519 | `/` over nonzero literals is the first divided, rounding down, by each of the others |
| `ExpressionNormalizer.DivideByZeroLiteral` | compiler/src/expression/parser.rs:482-485 | a zero literal makes a quotient 0 wherever it stands |
| `ExpressionNormalizer.DivideFoldLiterals` | compiler/src/expression/parser.rs:479-510 | the `/` loop over nonzero literals divides the constant by each |
| `ExpressionNormalizer.DivideFoldByZero` | compiler/src/expression/parser.rs:482-485 | the `/` loop returns 0 at a zero literal |
| `ExpressionNormalizer.MinimumRebuiltAsMaximum` | compiler/src/expression/parser.rs:593-598 | `minimum(x, 3)` comes back as `maximum(x, 3)`, as written |
| `ExpressionNormalizer.PlusConstantPushedAsZero` | compiler/src/expression/parser.rs:396-398 | `x + 2` comes back as `x + 0`, as written |
| `ExpressionCompile.AsU32` | compiler/src/expression/compile.rs:94 | `as u32` keeps the low 32 bits: the result is below 2^32 and equals any value that already fits |
| `ExpressionCompile.Repeat` | compiler/src/expression/compile.rs:107-109 | the loop over `1..n` pushes `n - 1` copies of its opcode, and none for an empty range |
| `ExpressionCompile.PushCopies` | compiler/src/expression/compile.rs:118-120 | the push loop leaves the code followed by one copy of the opcode per step of the range |
| `ExpressionCompile.InstructionsConcat` | compiler/src/expression/compile.rs:101-111 | two sequences of whole instructions joined are whole instructions |
| `ExpressionCompile.RepeatInstructions` | compiler/src/expression/compile.rs:107-109 | copies of a one-word opcode are whole instructions |
| `ExpressionCompile.TableKeptTrans` | compiler/src/expression/compile.rs:93 | successive interning steps only ever add to the string table, so the composition does too |
| `ExpressionCompile.ReferenceSpec` | compiler/src/expression/compile.rs:92-95 | a reference is three words, its opcode and the address of the interned name, adds no problem and only adds to the table |
| `ExpressionCompile.Unsupported` | compiler/src/expression/compile.rs:314-317 | an unimplemented operation appends exactly one Fatal at the compilation's attribution and compiles as `PUSH 0`, table unchanged |
| `ExpressionCompile.CompileSpec` | compiler/src/expression/compile.rs:86-321 | compiling only ever adds Fatal problems to the list |
| `ExpressionCompile.AtomSpec` | compiler/src/expression/compile.rs:88-96 | a literal or a reference adds no problem |
| `ExpressionCompile.InSpec` | compiler/src/expression/compile.rs:178-195 | `in` only adds Fatal problems |
| `ExpressionCompile.RandomSpec` | compiler/src/expression/compile.rs:238-247 | `random` only adds Fatal problems |
| `ExpressionCompile.RepeatedSpec` | compiler/src/expression/compile.rs:100-177 | the operand-then-opcode operators only add Fatal problems |
| `ExpressionCompile.NotSuffix` | compiler/src/expression/compile.rs:103-106 | `not` follows each operand by one `NOT`; every other operator by nothing |
| `ExpressionCompile.RepeatedOpcode` | compiler/src/expression/compile.rs:100-313 | each operator compiled as operands-then-copies maps to a one-word opcode |
| `ExpressionCompile.Joined` | compiler/src/expression/compile.rs:107-109 | appending copies of a one-word opcode keeps whole instructions and 32-bit words |
| `ExpressionCompile.OperandsSpec` | compiler/src/expression/compile.rs:103-106 | compiling the operands in turn only adds Fatal problems |
| `ExpressionCompile.Picked` | compiler/src/expression/compile.rs:159 | the operand visited at each step, forwards or reversed, is one of the operands |
| `ExpressionCompile.OperandStep` | compiler/src/expression/compile.rs:115-117 | one operand's compilation only adds Fatal problems |
| `ExpressionCompile.LocationsSpec` | compiler/src/expression/compile.rs:181-190 | the location tests of `in` only add Fatal problems |
| `ExpressionCompile.LocationStep` | compiler/src/expression/compile.rs:182-189 | an operand of `in` reports a problem exactly when it is not a reference |
| `ExpressionCompile.Conditional` | compiler/src/expression/compile.rs:202-210 | the conditional layout is four words longer than its three parts and keeps whole instructions and 32-bit words |
| `ExpressionCompile.ThenCodeSpec` | compiler/src/expression/compile.rs:196-215 | `then` only adds Fatal problems |
| `ExpressionCompile.CompiledLayout` | compiler/src/expression/compile.rs:86-321 | the compiled code is always a sequence of whole instructions, and every word fits in 32 bits when every literal does |
| `ExpressionCompile.RandomLayout` | compiler/src/expression/compile.rs:238-247 | `random` code is whole instructions and 32-bit words |
| `ExpressionCompile.ThenLayout` | compiler/src/expression/compile.rs:196-215 | `then` code is whole instructions and 32-bit words |
| `ExpressionCompile.OperandsLayout` | compiler/src/expression/compile.rs:103-106 | compiling the operands keeps whole instructions and 32-bit words |
| `ExpressionCompile.LocationsLayout` | compiler/src/expression/compile.rs:181-190 | location tests keep whole instructions and 32-bit words |
| `ExpressionCompile.CompiledTable` | compiler/src/expression/compile.rs:86-321 | compilation only adds to the shared string table and keeps every address spelling its string |
| `ExpressionCompile.ThenTable` | compiler/src/expression/compile.rs:196-215 | `then` only adds to the string table |
| `ExpressionCompile.OperandsTable` | compiler/src/expression/compile.rs:103-106 | compiling operands only adds to the string table |
| `ExpressionCompile.LocationsTable` | compiler/src/expression/compile.rs:181-190 | location tests only add to the string table |
| `ExpressionCompile.HintIrrelevant` | compiler/src/expression/compile.rs:196-201 | the type hint changes nothing the compiler emits: logical and numeric compilation give the same code, table and problems |
| `ExpressionCompile.NoneAdded` | compiler/src/expression/compile.rs:188 | a step that only adds problems added none exactly when the list kept its length |
| `ExpressionCompile.CleanExactlyWhenSupported` | compiler/src/expression/compile.rs:86-321 | compilation reports no problem if and only if every operator is implemented, every `then` has three operands and every `in` operand is a reference |
| `ExpressionCompile.UnimplementedClean` | compiler/src/expression/compile.rs:314-317 | an unimplemented operator always reports a problem |
| `ExpressionCompile.InClean` | compiler/src/expression/compile.rs:178-195 | `in` reports nothing exactly when every operand is a reference |
| `ExpressionCompile.RandomClean` | compiler/src/expression/compile.rs:238-247 | `random` reports nothing exactly when its operands are supported |
| `ExpressionCompile.RepeatedClean` | compiler/src/expression/compile.rs:100-177 | the operand-then-opcode operators report nothing exactly when their operands are supported |
| `ExpressionCompile.ThenClean` | compiler/src/expression/compile.rs:196-215 | `then` reports nothing exactly when it has three supported operands |
| `ExpressionCompile.ReferencesSupported` | compiler/src/expression/compile.rs:182 | an `in` is supported exactly when every operand is a reference |
| `ExpressionCompile.OperandStepClean` | compiler/src/expression/compile.rs:115-117 | one operand's step reports nothing exactly when that operand is supported |
| `ExpressionCompile.MinusPushesLastFirst` | compiler/src/expression/compile.rs:156-166 | `5 - 3` compiles as `PUSH 3, PUSH 5, SUBTRACT` |
| `ExpressionCompile.ThenLayoutExample` | compiler/src/expression/compile.rs:196-210 | `true then 1 else 2` compiles as condition, `BRANCH 4`, consequent, `JUMP 4`, alternative |
| `ExpressionCompile.Compile.constructor` | compiler/src/expression/compile.rs:64-70 | a compilation starts with its attribution, the shared table and no problems |
| `ExpressionCompile.Compile.CompileLogical` | compiler/src/expression/compile.rs:72-77 | the whole expression compiled as a truth, code, table and problems as `CompileSpec` says |
| `ExpressionCompile.Compile.CompileNumeric` | compiler/src/expression/compile.rs:79-84 | the whole expression compiled as a number, as `CompileSpec` says |
| `ExpressionCompile.Compile.CompileInner` | compiler/src/expression/compile.rs:86-321 | the recursive compilation leaves code, table and problems exactly as `CompileSpec` says |
| `ExpressionCompile.Compile.CompileThen` | compiler/src/expression/compile.rs:196-215 | `then` leaves the state `ThenCodeSpec` says |
| `ExpressionCompile.Compile.CompileRepeated` | compiler/src/expression/compile.rs:100-177 | the operand-then-opcode operators leave the state `RepeatedSpec` says |
| `ExpressionCompile.Compile.CompileOperands` | compiler/src/expression/compile.rs:103-106 | the operand loop leaves the state `OperandsSpec` says |
| `ExpressionCompile.Compile.CompileIn` | compiler/src/expression/compile.rs:178-195 | `in` leaves the state `InSpec` says |
| `ExpressionCompile.Compile.CompileLocations` | compiler/src/expression/compile.rs:181-190 | the location loop leaves the state `LocationsSpec` says |
| `TemplateLexer.Start` | compiler/src/template/lexer.rs:95-105 | a new lexer holds the whole source, in the initial state, with nothing pending |
| `TemplateLexer.CharIndexBytes` | compiler/src/template/lexer.rs:142 | the char index found for a byte offset starts exactly that many bytes in |
| `TemplateLexer.CharIndexOfPrefix` | compiler/src/template/lexer.rs:142 | every char boundary is found: the byte length of the first chars leads back to their count |
| `TemplateLexer.CharIndexPanics` | compiler/src/template/lexer.rs:142 | slicing at a byte offset panics if and only if no prefix of the text has that many bytes |
| `TemplateLexer.CharIndexMonotone` | compiler/src/template/lexer.rs:224 | a later byte offset is at a later char, so a byte range is a char range |
| `TemplateLexer.Suffix` | compiler/src/template/lexer.rs:142 | `&source[offset..]` is a suffix of the text, shorter when the offset is positive |
| `TemplateLexer.SuffixBytes` | compiler/src/template/lexer.rs:142 | the suffix's UTF-8 encoding is the text's bytes from the offset on |
| `TemplateLexer.SliceBytes` | compiler/src/template/lexer.rs:224 | `&source[start..offset]` is encoded as exactly the text's bytes between the two offsets |
| `TemplateLexer.SuffixAtChar` | compiler/src/template/lexer.rs:142 | slicing at the byte length of a prefix never panics and leaves the text after that prefix |
| `TemplateLexer.SliceAtChars` | compiler/src/template/lexer.rs:224 | slicing between the byte lengths of two prefixes never panics and gives the chars between them |
| `TemplateLexer.Scan` | compiler/src/template/lexer.rs:121-336 | the loop of `next`, from `k` chars read and `offset` bytes counted: the token it yields and the fields it leaves, or a panic at a slice inside a char |
| `TemplateLexer.BracketToken` | compiler/src/template/lexer.rs:191-235 | `[` yields AnchorBegin one byte on; `](` goes on to the target; a stray `]` counts one byte and one column and skips the next char uncounted |
| `TemplateLexer.NextSpec` | compiler/src/template/lexer.rs:116-345 | `next`: the loop from the start of the remaining text with no byte counted |
| `TemplateLexer.RunOf` | compiler/src/template/lexer.rs:247-257 | the run of delimiter chars never reaches past the text |
| `TemplateLexer.CloseBrace` | compiler/src/template/lexer.rs:314-326 | a tag's text runs to the first `}` after the `{`, or to the end of the text, and holds no `}` |
| `TemplateLexer.HrefScan` | compiler/src/template/lexer.rs:204-233 | an anchor target ends at a `)` inside the text, breaks off after a newline, or runs off the end |
| `TemplateLexer.HrefTokenClosed` | compiler/src/template/lexer.rs:223-228 | when the target closes at `)`, the token is the slice between `](` and `)`, trimmed, and the source resumes one byte past the `)` |
| `TemplateLexer.HrefTokenBreaks` | compiler/src/template/lexer.rs:217-222 | when a newline ends the target, the loop goes on after it in the Newline state, with the offset and mark of the next line |
| `TemplateLexer.HrefTokenUnclosed` | compiler/src/template/lexer.rs:204-234 | when the text ends inside the target, `next` finishes there with the mark at the end of the text |
| `TemplateLexer.ScanSpace` | compiler/src/template/lexer.rs:122-154 | a whitespace char that does not end a blank line only moves the mark and the state and is consumed |
| `TemplateLexer.ScanPlain` | compiler/src/template/lexer.rs:155-187 | a visible plain char is appended to the pending text, after one space for any whitespace before it |
| `TemplateLexer.ScanSpecial` | compiler/src/template/lexer.rs:169-176 | a special char with nothing pending is read as a token of its own |
| `TemplateLexer.TemplateLex.Lex` | compiler/src/template/lexer.rs:95-105 | the lexer starts at the start of the source, at line 0 column 0, with tags on for templates and off for text |
| `TemplateLexer.TemplateLex.Move` | compiler/src/template/lexer.rs:124-129 | a newline moves the mark to the next line's column 0; any other char moves the column by its UTF-8 width |
| `TemplateLexer.TemplateLex.Next` | compiler/src/template/lexer.rs:116-345 | the token returned and the fields left behind are exactly those of `NextSpec`, and it panics exactly where `NextSpec` does: at a slice whose byte offset falls inside a char |
| `TemplateLexer.TemplateLex.ReadEnd` | compiler/src/template/lexer.rs:338-344 | at the end of the text the pending text is yielded with the source sliced at the offset reached, or nothing, as the final step of `NextSpec` says |
| `TemplateLexer.TemplateLex.ReadWhitespace` | compiler/src/template/lexer.rs:122-154 | a whitespace char either ends the pending text at a blank line or leaves the scan where the next char takes over |
| `TemplateLexer.TemplateLex.ReadVisible` | compiler/src/template/lexer.rs:155-188 | a visible char yields a paragraph break after a blank line, ends pending text at a special char, or extends the pending text |
| `TemplateLexer.TemplateLex.ReadSpecial` | compiler/src/template/lexer.rs:190-334 | a special char with nothing pending is read as `SpecialToken` says |
| `TemplateLexer.TemplateLex.ReadBracket` | compiler/src/template/lexer.rs:191-235 | `[` opens an anchor; `](` reads the target; a stray `]` moves the mark by one column and counts one byte, and the char after it is read without being counted, all as `BracketToken` says |
| `TemplateLexer.TemplateLex.ReadAnchorEnd` | compiler/src/template/lexer.rs:199-234 | `](` yields the trimmed target at `)`, carries on after a newline, or finishes at the end of the text, as `HrefToken` says |
| `TemplateLexer.TemplateLex.ReadTarget` | compiler/src/template/lexer.rs:223-228 | the target slice is trimmed and the source left one byte past the `)`, either slice panicking where it falls inside a char |
| `TemplateLexer.TemplateLex.FindHrefEnd` | compiler/src/template/lexer.rs:204-233 | the target loop ends where `HrefScan` says |
| `TemplateLexer.TemplateLex.ReadDelimiter` | compiler/src/template/lexer.rs:236-305 | a `*` or `_` run yields the delimiter `DelimiterSpec` classifies, the source resuming after the run |
| `TemplateLexer.TemplateLex.FindTagEnd` | compiler/src/template/lexer.rs:314-326 | the tag loop stops at the first `}` (or the end), with the mark moved over the tag's text |
| `TemplateLexer.TemplateLex.ReadTag` | compiler/src/template/lexer.rs:306-332 | a tag yields an expression lexer over its text, started at the mark after `{`, and the source resumes after the `}` |
| `TemplateLexerFacts.StartSettled` | compiler/src/template/lexer.rs:95-105 | a new lexer is settled with nothing pending |
| `TemplateLexerFacts.PushPlain` | compiler/src/template/lexer.rs:155-187 | appending a visible plain char to settled pending text keeps it plain |
| `TemplateLexerFacts.FinishYields` | compiler/src/template/lexer.rs:338-344 | the end of the input yields the pending text as a valid token, or nothing |
| `TemplateLexerFacts.ScanYields` | compiler/src/template/lexer.rs:121-336 | every exit from the loop of `next` yields a valid token and leaves nothing pending |
| `TemplateLexerFacts.SpecialYields` | compiler/src/template/lexer.rs:190-334 | a special char yields a valid token |
| `TemplateLexerFacts.BracketYields` | compiler/src/template/lexer.rs:191-235 | a bracket yields a valid token |
| `TemplateLexerFacts.HrefYields` | compiler/src/template/lexer.rs:199-234 | an anchor target yields a valid token |
| `TemplateLexerFacts.NextYields` | compiler/src/template/lexer.rs:116-345 | every text token is non-empty, holds no special char and has its whitespace collapsed to single spaces; nothing is left pending; only the template lexer yields tags |
| `TemplateLexerFacts.TextLexerHasNoTags` | compiler/src/text/lexer.rs:1-310 | the text lexer never yields a tag |
| `TemplateLexerFacts.ScanProgress` | compiler/src/template/lexer.rs:121-336 | every token the loop yields leaves less for the lexer to do |
| `TemplateLexerFacts.SpecialProgress` | compiler/src/template/lexer.rs:190-334 | a special token leaves less to do |
| `TemplateLexerFacts.BracketProgress` | compiler/src/template/lexer.rs:191-235 | a bracket token leaves less to do |
| `TemplateLexerFacts.HrefProgress` | compiler/src/template/lexer.rs:199-234 | an anchor target token leaves less to do |
| `TemplateLexerFacts.NextProgress` | compiler/src/template/lexer.rs:116-345 | every token `next` yields leaves less to do, so pulling tokens until none are left ends |
| `TemplateLexerFacts.ScanShrinks` | compiler/src/template/lexer.rs:121-336 | the loop of `next` only drops a prefix of the source, and a tag drops at least its `{` |
| `TemplateLexerFacts.NextShrinks` | compiler/src/template/lexer.rs:116-345 | `next` only ever drops a prefix of the source, and a tag drops at least its `{` |
| `TemplateLexerFacts.EscapeNeverCloses` | compiler/src/template/lexer.rs:205-216 | once a backslash is read in an anchor target, neither `)` nor a newline ends it: the target runs to the end of the text |
| `TemplateLexerFacts.TargetCloses` | compiler/src/template/lexer.rs:223-228 | a target of ordinary chars closes at the first `)`, at that char's mark |
| `TemplateLexerFacts.AnchorTargetTrimmed` | compiler/src/template/lexer.rs:223-228 | such an anchor yields its target trimmed, and the source resumes after the `)` |
| `TemplateLexerFacts.TargetBreaks` | compiler/src/template/lexer.rs:217-222 | a target broken by a newline is abandoned there, lexing going on at the start of the next line |
| `TemplateLexerFacts.RunIsMaximal` | compiler/src/template/lexer.rs:247-257 | a delimiter run covers every consecutive `*` or `_` and stops at the first other char |
| `TemplateLexerFacts.FlankingNeedsNeighbours` | compiler/src/template/lexer.rs:259-303 | a run that may open is not followed by whitespace, one that may close is not preceded by it, and the token keeps its char and length |
| `TemplateLexerFacts.Intraword` | compiler/src/template/lexer.rs:294-303 | between letters a `*` run both opens and closes while a `_` run does neither |
| `TemplateLexerFacts.DelimiterRunRead` | compiler/src/template/lexer.rs:236-270 | a delimiter token's length is the whole run, and the source resumes right after it |
| `TemplateLexerFacts.TagRead` | compiler/src/template/lexer.rs:306-332 | a tag's text is everything between `{` and the next `}` (or the end), and the source resumes after that `}` |
| `TemplateLexerFacts.CloseBraceDelimits` | compiler/src/template/lexer.rs:314-330 | the text of a tag is the chars after `{` up to the first `}`, and the rest is what follows that `}` |
| `TemplateLexerFacts.HrefClosedAt` | compiler/src/template/lexer.rs:223-228 | a target read from a char boundary and closed at the `)` at char `j` is the chars between, trimmed, and the source resumes after that `)` |
| `TemplateLexerFacts.NextNeverPanics` | compiler/src/template/lexer.rs:116-345 | in a text where every `]` but a final one is followed by `(`, every offset lands on a char boundary, so `next` never panics |
| `TemplateLexerExamples.StrayBracket` | compiler/src/template/lexer.rs:196-199 | in `]ab*` the `a` after a stray `]` is lost and the text `b` is yielded twice, because the char after `]` is read but its byte is not counted |
| `TemplateLexerExamples.StrayBracketMultibyte` | compiler/src/template/lexer.rs:196-199 | in `]éab*` the skipped `é` counts one byte of its two, so the text `ab` is sliced one byte early and yielded twice |
| `TemplateLexerExamples.StrayBracketPanics` | compiler/src/template/lexer.rs:196-199 | in `]é€*` the text `€` is sliced one byte into the three bytes of `€`, and `next` panics |
| `TemplateLexerExamples.AnchorOpens` | compiler/src/template/lexer.rs:191-195 | `[` opens an anchor without moving the mark |
| `TemplateLexerExamples.AnchorCloses` | compiler/src/template/lexer.rs:196-228 | `](y)` closes an anchor with the target `y`, the source resuming past the `)` |
| `TemplateLexerExamples.ScanWord` | compiler/src/template/lexer.rs:155-187 | letters read up to a special char join the pending text, which is yielded with the source sliced at the byte reached |
| `TemplateParse.Emphasize` | compiler/src/template/parse.rs:129-149 | a matched pair of double runs wraps its nodes in Bold, a single pair in Italic |
| `TemplateParse.AnchorNode` | compiler/src/template/parse.rs:244-245 | a closed anchor is an Anchor node with its target and the nodes after the `[` |
| `TemplateParse.TagProblemsFatal` | compiler/src/template/parse.rs:205-207 | every problem the expression parser reports for a tag is fatal |
| `TemplateParse.InnerLoop` | compiler/src/template/parse.rs:186-255 | the loop consumes only a prefix of the text, ends on a tag only inside a branch (and then consumes something), and only adds fatal problems |
| `TemplateParse.TagEffect` | compiler/src/template/parse.rs:204-227 | a tag opens a branch, hands `else` or `end` back inside a branch, reports an invalid or empty tag otherwise, never hands back a bare condition, and only adds fatal problems |
| `TemplateParse.WhenTagOpensBranch` | compiler/src/template/parse.rs:209-211 | a condition opens a branch parsed from after the tag, added as one node with that condition; the tag's problems come first and no tag is handed back |
| `TemplateParse.InvalidTagOutsideBranch` | compiler/src/template/parse.rs:212-214 | `else` or `end` outside a branch adds exactly one "Invalid tag" Fatal at the lexer's mark after the tag's problems, and no node |
| `TemplateParse.TagEndsBranchNodes` | compiler/src/template/parse.rs:215-217 | inside a branch, `else` or `end` is handed back with the nodes so far, adding only the tag's problems |
| `TemplateParse.NothingTag` | compiler/src/template/parse.rs:220-225 | a tag that parses to nothing adds no node: an "Empty tag" Fatal at the expression lexer's mark when it had no problem, its own problems otherwise |
| `TemplateParse.TagPanics` | compiler/src/template/parse.rs:205 | a tag the expression parser panics on panics the template parser |
| `TemplateParse.BlankTagIsEmpty` | compiler/src/template/parse.rs:220-222 | a blank tag adds exactly one "Empty tag" Fatal at the tag's own mark |
| `TemplateParse.EndOutsideBranch` | compiler/src/template/parse.rs:212-214 | `{end}` outside a branch adds exactly one "Invalid tag" Fatal and nothing else |
| `TemplateParse.InnerSpec` | compiler/src/template/parse.rs:180-256 | `parse_inner` consumes only a prefix of the text, hands a tag back only inside a branch and only adds fatal problems |
| `TemplateParse.BranchSpec` | compiler/src/template/parse.rs:258-284 | `parse_branch` always yields a Branch with the given condition and only adds fatal problems |
| `TemplateParse.BranchUnended` | compiler/src/template/parse.rs:280-283 | nodes that run to the end of the text make a branch with no else side and one "End tag expected" Fatal where the lexer stopped |
| `TemplateParse.BranchEnded` | compiler/src/template/parse.rs:276-278 | `{end}` closes the branch with no else side and no problem of its own |
| `TemplateParse.BranchElseIf` | compiler/src/template/parse.rs:262-265 | `{else cond}` makes the else side one nested branch of `cond`, parsed from after the tag |
| `TemplateParse.BranchElse` | compiler/src/template/parse.rs:266-275 | a bare `{else}` takes the nodes up to the next tag as the else side, with "End tag expected" unless that tag is `{end}` |
| `TemplateParse.BranchAtEnd` | compiler/src/template/parse.rs:258-284 | a branch opened at the very end of the text has no nodes and exactly one problem more, "End tag expected" |
| `TemplateParse.ParseSpec` | compiler/src/template/parse.rs:90-112 | every problem a template parse reports is fatal |
| `TemplateParse.InnerLoopNeverWhen` | compiler/src/template/parse.rs:208-218 | the loop never hands a bare condition back: a `{cond}` tag always opens a branch of its own |
| `TemplateParse.InnerNeverWhen` | compiler/src/template/parse.rs:259-265 | so the `When` arm of `parse_branch` is dead: only `else` and `end` tags end a branch's nodes |
| `TemplateParse.WordsOfIsFlatMap` | compiler/src/template/parse.rs:10-18 | the text of a list of nodes is the text of each node in turn |
| `TemplateParse.EmphasizeSeesThrough` | compiler/src/template/parse.rs:129-149 | wrapping nodes in Bold or Italic keeps their text and its order |
| `TemplateParse.ParagraphKeepsWords` | compiler/src/template/parse.rs:192-196 | a blank line adds no text, and resolving the runs before it keeps the text in order |
| `TemplateParse.CloseAnchorKeepsWords` | compiler/src/template/parse.rs:239-249 | closing an anchor keeps the text in order, the nodes after the `[` moving into the Anchor |
| `TemplateParse.EmptyTemplate` | compiler/src/template/parse.rs:90-112 | an empty template parses to no nodes and no problems |
| `TemplateParse.Parse.constructor` | compiler/src/template/parse.rs:96-103 | a parse starts with a template lexer at the start of the text and no problems |
| `TemplateParse.Parse.ParseInner` | compiler/src/template/parse.rs:180-256 | `parse_inner` panics, or returns the nodes and tag and leaves the lexer and problems, exactly as `InnerSpec` says |
| `TemplateParse.Parse.ReadTag` | compiler/src/template/parse.rs:204-227 | the tag case leaves what `TagEffect` says |
| `TemplateParse.Parse.ParseBranch` | compiler/src/template/parse.rs:258-284 | `parse_branch` leaves what `BranchSpec` says |
| `TemplateParse.ParseTemplate` | compiler/src/template/parse.rs:90-112 | `TemplateParser::parse` returns exactly `ParseSpec` |
| `TemplateCompile.Interned` | compiler/src/template/compile.rs:24-26 | an interned text is two 32-bit words, its address in the table after `put` |
| `TemplateCompile.BranchLayout` | compiler/src/template/compile.rs:46-63 | a branch without an else side is the condition, two words and the then-code; with one it is four words longer than its three parts |
| `TemplateCompile.NodesSpec` | compiler/src/template/compile.rs:20-66 | compiling the nodes in turn only adds Fatal problems |
| `TemplateCompile.TemplateSpec` | compiler/src/template/compile.rs:16-69 | compiling a template only adds Fatal problems |
| `TemplateCompile.NodeSpec` | compiler/src/template/compile.rs:21-65 | compiling one node only adds Fatal problems |
| `TemplateCompile.TemplateInstructionsConcat` | compiler/src/template/compile.rs:20-66 | whole template instructions joined are whole instructions |
| `TemplateCompile.ExpressionInstructions` | compiler/src/template/compile.rs:47-49 | expression code embedded in a template is whole template instructions: the template opcodes are none of the expression's |
| `TemplateCompile.BranchLayoutInstructions` | compiler/src/template/compile.rs:46-63 | a branch's layout is whole instructions, and 32-bit words when its parts are |
| `TemplateCompile.NodesLayout` | compiler/src/template/compile.rs:20-66 | the code of the nodes is whole instructions, and 32-bit words when every condition's literals fit |
| `TemplateCompile.NodeLayout` | compiler/src/template/compile.rs:21-65 | one node's code is whole instructions, and 32-bit words when its conditions' literals fit |
| `TemplateCompile.Bracketed` | compiler/src/template/compile.rs:28-45 | Italic, Bold and Anchor bracket their children's code with a push and a closing instruction, keeping whole instructions |
| `TemplateCompile.NodesClean` | compiler/src/template/compile.rs:20-66 | the nodes add no problem exactly when every branch condition among them compiles cleanly |
| `TemplateCompile.NodeClean` | compiler/src/template/compile.rs:21-65 | one node adds no problem exactly when its branch conditions compile cleanly |
| `TemplateCompile.NodesTable` | compiler/src/template/compile.rs:20-66 | the nodes only add to the string table and keep it valid |
| `TemplateCompile.NodeTable` | compiler/src/template/compile.rs:21-65 | one node only adds to the string table |
| `TemplateCompile.NodesAccumulate` | compiler/src/template/compile.rs:17-68 | the words emitted before the nodes stay in front of theirs |
| `TemplateCompile.NodesSplit` | compiler/src/template/compile.rs:20-66 | compiling `a + b` is compiling `a` and then `b` from where `a` left off |
| `TemplateCompile.TemplateConcat` | compiler/src/template/compile.rs:16-69 | compiling two lists one after the other gives the code of their concatenation, the second starting from the table and problems the first left |
| `TemplateCompile.TemplateLayout` | compiler/src/template/compile.rs:16-69 | a compiled template is whole instructions, and 32-bit words when every condition's literals fit |
| `TemplateCompile.TemplateClean` | compiler/src/template/compile.rs:16-69 | a compiled template reports no problem exactly when every branch condition is one the expression compiler supports |
| `TemplateCompile.TemplateTable` | compiler/src/template/compile.rs:16-69 | compiling a template only adds to the string table and keeps it valid |
| `TemplateCompile.BranchWithoutElse` | compiler/src/template/compile.rs:46-62 | `{true}` with a one-word body compiles as `PUSH 1, BRANCH 1, PARAGRAPH_PUSH` |
| `TemplateCompile.BranchWithElse` | compiler/src/template/compile.rs:46-58 | with a one-word else side, `BRANCH` skips 3 words and the `JUMP` skips 1, the else side's own length |
| `TemplateCompile.CompileTemplate` | compiler/src/template/compile.rs:16-69 | `compile_template` returns the code and leaves the table and problems as `TemplateSpec` says |
| `TemplateCompile.CompileNode` | compiler/src/template/compile.rs:21-65 | one node's code, table and problems as `NodeSpec` says |
| `Emphasis.Store` | compiler/src/template/parse.rs:137-138 | writing a stack entry back keeps the stack's length, and panics past the end |
| `Emphasis.ShiftLater` | compiler/src/template/parse.rs:140-144 | moving the later entries down keeps the stack's length |
| `Emphasis.WrapStep` | compiler/src/template/parse.rs:129-163 | a wrap keeps the stack's length; a Bold wrap leaves each run at most one delimiter (`1.min(length - 2)`), an Italic wrap none |
| `Emphasis.Seek` | compiler/src/template/parse.rs:122-174 | the inner loop only ever shortens the stack |
| `Emphasis.WrapInPlace` | compiler/src/template/parse.rs:129-163 | the in-place splice, insert, writes and shift give exactly `WrapStep` |
| `Emphasis.ProcessStylesInPlace` | compiler/src/template/parse.rs:114-178 | `process_styles` with its two loops gives exactly `ProcessStyles`, a panic included |
| `Emphasis.ProcessStyles` | compiler/src/template/parse.rs:114-178 | `process_styles` on values: each closer is paired with the nearest matching opener below it and the nodes between wrapped, or a panic where the source's index arithmetic fails; the lemmas below state what it keeps |
| `Emphasis.FlatMapConcat` | compiler/src/template/parse.rs:130-131 | the leaves of two lists joined are the leaves of each in turn |
| `Emphasis.WrapKeeps` | compiler/src/template/parse.rs:130-131 | wrapping a range of nodes into one keeps the leaves in order |
| `Emphasis.WrapStepKeeps` | compiler/src/template/parse.rs:129-163 | a wrap that completes keeps the leaves in order |
| `Emphasis.SeekKeeps` | compiler/src/template/parse.rs:122-174 | the inner loop, when it completes, keeps the leaves in order |
| `Emphasis.ResolveKeeps` | compiler/src/template/parse.rs:118-177 | the outer loop, when it completes, keeps the leaves in order |
| `Emphasis.ProcessStylesKeepsLeaves` | compiler/src/template/parse.rs:114-178 | resolving emphasis only regroups nodes: whenever it completes the leaves are those it was given, in order, and there are no more nodes than before |
| `Emphasis.LastAnchor` | compiler/src/template/parse.rs:240-242 | the search finds the topmost `[` on the stack, and finds none only when there is none |
| `Emphasis.CloseAnchorInPlace` | compiler/src/template/parse.rs:239-249 | closing an anchor in place gives exactly `CloseAnchor`: the runs above the `[` are resolved and the nodes after it become the anchor |
| `Emphasis.CloseAnchor` | compiler/src/template/parse.rs:239-249 | closing an anchor on values: the runs above the topmost `[` are resolved and the nodes after it become one Anchor node; nothing happens without a `[` |
| `Emphasis.CloseAnchorKeepsLeaves` | compiler/src/template/parse.rs:239-249 | closing an anchor, when it completes, keeps the leaves in order |
| `Emphasis.ShiftLaterByZero` | compiler/src/template/parse.rs:140-144 | a shift by zero changes nothing |
| `Emphasis.WrapStepShiftsNothing` | compiler/src/template/parse.rs:133-144 | the shift of the later entries is computed after the closer has moved, so it is always zero |
| `Emphasis.ItalicPair` | compiler/src/template/parse.rs:147-163 | a pair where one run has a single delimiter makes one Italic node |
| `Emphasis.BoldPair` | compiler/src/template/parse.rs:129-145 | a pair of runs of at least two, one with exactly two, makes one Bold node |
| `Emphasis.BoldInsideItalic` | compiler/src/template/parse.rs:129-163 | runs of three or more make a Bold node inside an Italic one |
| `Emphasis.NearestOpener` | compiler/src/template/parse.rs:122-126 | a closer pairs with the nearest opener below it, and one further down stays unmatched |
| `Emphasis.OtherCharUnmatched` | compiler/src/template/parse.rs:125 | runs of different chars do not pair |
| `Emphasis.CloserAtBottomPanics` | compiler/src/template/parse.rs:121-122 | a closer at the bottom of the stack computes `0 - 1` on `usize` and panics, whatever the nodes |
| `Emphasis.NestedRunsPanic` | compiler/src/template/parse.rs:126-138 | for `*_x_*` the outer closer writes to a stack position past the end after the splice, and panics |
| `Emphasis.LaterRunsNotShifted` | compiler/src/template/parse.rs:140-163 | with two pairs, the later pair still points past the nodes after the first wrap, and the second wrap panics |
| `Texts.SerializeAll` | compiler/src/text.rs:4 | a text serialises as an array with one item per node |
| `Texts.Serialize` | compiler/src/text.rs:15-42 | the serialised shape of one node: a plain text as a string, paragraph, italic and bold as a one-entry map keyed `p`, `i`, `b`, an anchor as `{a, href}`; `Texts.RoundTrip` and `Texts.SerializeInjective` state what it preserves |
| `Texts.SerializeEach` | compiler/src/text.rs:15-42 | serialising each node gives one JSON value per node |
| `Texts.DeserializeAll` | compiler/src/text.rs:15-42 | reading items back yields one node per item |
| `Texts.RoundTrip` | compiler/src/text.rs:15-42 | serialising a node (plain as a string, paragraph/italic/bold as a one-entry map keyed `p`/`i`/`b`, anchor as `{a, href}`) and reading it back gives the node |
| `Texts.RoundTripAll` | compiler/src/text.rs:15-42 | the same for a list of nodes |
| `Texts.SerializeInjective` | compiler/src/text.rs:15-42 | two nodes with the same serialised form are the same node |
| `TextParse.EmphasizeText` | compiler/src/text/parse.rs:57-122 | a matched pair of double runs wraps its nodes in Bold, a single pair in Italic |
| `TextParse.AnchorText` | compiler/src/text/parse.rs:161-162 | a closed anchor is an Anchor node with its target and the nodes after the `[` |
| `TextParse.TextLoop` | compiler/src/text/parse.rs:130-173 | the loop extends the paragraphs closed so far by at least the last one, and every one is a Paragraph |
| `TextParse.ParseSpec` | compiler/src/text/parse.rs:16-18 | a parsed text reports no problem and is a non-empty list of paragraphs |
| `TextParse.PlainsOfConcat` | compiler/src/text.rs:4-13 | the plain texts of two lists joined are those of each in turn |
| `TextParse.TextSeesThrough` | compiler/src/text.rs:7-13 | Bold, Italic and Anchor nodes have the plain texts of their children |
| `TextParse.ResolvedKeepsPlains` | compiler/src/text/parse.rs:57-122 | resolving emphasis keeps the plain texts in order |
| `TextParse.ClosedKeepsPlains` | compiler/src/text/parse.rs:156-166 | closing an anchor keeps the plain texts in order |
| `TextParse.PlainsOfClosed` | compiler/src/text/parse.rs:135-138 | closing a paragraph adds its plain texts after those of the paragraphs before it |
| `TextParse.PlainsOfPushed` | compiler/src/text/parse.rs:132-134 | pushing a plain text adds it after the texts before it |
| `TextParse.TextLoopKeeps` | compiler/src/text/parse.rs:130-173 | the loop loses and invents no text: its paragraphs hold the texts given followed by every text token still to come, one paragraph per blank line still to come plus the last |
| `TextParse.BreakKeeps` | compiler/src/text/parse.rs:135-138 | the same at a blank line |
| `TextParse.ParseKeepsText` | compiler/src/text/parse.rs:16-18 | a parsed text holds exactly the lexer's text tokens, in order, and one paragraph more than the text has blank lines |
| `TextParse.Parse.constructor` | compiler/src/text/parse.rs:40-46 | a parse starts with a text lexer at the start of the source and no problems |
| `TextParse.Parse.ParseInner` | compiler/src/text/parse.rs:124-174 | `parse_inner` returns exactly `TextLoop` from a fresh state |
| `TextParse.ParseText` | compiler/src/text/parse.rs:16-18 | `TextParser::parse` returns exactly `ParseSpec` |
| `ElementBase.AllFatalAppend` | compiler/src/element/element.rs:18-26 | a problem list joined from two is all Fatal exactly when both parts are |
| `ElementBase.Lookup` | compiler/src/element/element.rs:10 | a key lookup finds nothing exactly when no entry's key compares equal to the string-tagged key, and otherwise finds such an entry |
| `ElementBase.FromKey` | compiler/src/element/element.rs:9-16 | `from_key` gives nothing and no problem exactly when the key is absent, and otherwise the element built from its value at the key's attribution |
| `ElementBase.BuildSequence` | compiler/src/element/element.rs:18-26 | `from_sequence` yields one element per node, in order, item `i` built at index `i` |
| `ElementBase.BuildSequenceFatal` | compiler/src/element/element.rs:18-26 | a sequence reports only Fatal problems when every item does |
| `ElementBase.FromSequence` | compiler/src/element/element.rs:18-26 | the loop of `from_sequence` gives exactly `BuildSequence` |
| `ElementConditional.ConditionalFromNode` | compiler/src/element/conditional.rs:20-59 | in a mapping each of `when`, `if`, `unless` is present exactly when its key is, and the element comes from `then` when present and from the whole node otherwise; any other node has no condition; problems in reading order |
| `ElementConditional.Always` | compiler/src/element/conditional.rs:63-71 | `always` is the element with no condition, at the given attribution |
| `ElementConditional.NonMappingIsAlways` | compiler/src/element/conditional.rs:47-57 | a node that is not a mapping reads as `always` of its element |
| `ElementExpression.ExpressionFromNode` | compiler/src/element/expression.rs:16-28 | a scalar gives the expression verbatim with no problem; a sequence or mapping reports one Fatal with its own message and gives `no` |
| `ElementList.ListFromNode` | compiler/src/element/list.rs:16-30 | a sequence yields one element per item in order with the items' problems; any other node yields exactly the element built from the node |
| `ElementList.ListFatal` | compiler/src/element/list.rs:16-30 | a list reports only Fatal problems when its element kind does |
| `ElementList.One` | compiler/src/element/list.rs:34-40 | `one` holds exactly the element |
| `ElementList.OneOrNone` | compiler/src/element/list.rs:41-50 | `one_or_none` is empty exactly when there is no element, and `one` of it otherwise |
| `ElementList.NonSequenceIsOne` | compiler/src/element/list.rs:26-29 | a non-sequence node reads as `one` of the element built from it |
| `ElementLocation.LocationFromNamedNode` | compiler/src/element/location.rs:31-82 | a mapping reads `name` (overriding the one passed), `label`, `description`, `body`, `storylets`; a scalar is a bare location, reported unless blank; an empty sequence is a bare location; a longer one is reported and read as its first item |
| `ElementLocation.SingleItemLocation` | compiler/src/element/location.rs:47-63 | a one-item sequence is its item at the same attribution, with the same name |
| `ElementLogical.LogicalFromNode` | compiler/src/element/logical.rs:16-37 | the value is true exactly for a scalar that trims and lower-cases to `yes` or `true`; no problem exactly for a scalar spelling true or false; otherwise one Fatal |
| `ElementLogical.CaseIgnored` | compiler/src/element/logical.rs:19-21 | `TRUE` reads as true and `False` as false, with no problem |
| `ElementMeta.VersionFromNode` | compiler/src/element/meta.rs:26-45 | a scalar is the trimmed version; a mapping is reported and is the empty version; a longer sequence is reported first and read as its first item; only Fatal problems, and none exactly for a well-formed version |
| `ElementMeta.MetaFromNode` | compiler/src/element/meta.rs:53-96 | a mapping reads `title`, `description` and `credits`; a scalar is an empty block, reported unless blank; an empty sequence is an empty block; any other sequence is reported and read as its first item |
| `ElementMeta.SingleItemMetaReported` | compiler/src/element/meta.rs:76-78 | a one-item sequence of metadata is reported even though it holds a single block (the guard is `len() > 0`) |
| `ElementName.NameFromNode` | compiler/src/element/name.rs:16-38 | a scalar is the name verbatim with no problem; a longer sequence and a non-empty mapping are reported; only Fatal problems, none exactly for a well-formed name |
| `ElementName.SingleItemName` | compiler/src/element/name.rs:19-28 | a one-item sequence names what its item names, at index 0 |
| `ElementNamed.BuildEntries` | compiler/src/element/named.rs:30-44 | the mapping loop yields one element per entry |
| `ElementNamed.BuildEntriesElements` | compiler/src/element/named.rs:33-39 | element `i` is the value of entry `i`, built with the name read from its key at index `i` |
| `ElementNamed.EntriesStep` | compiler/src/element/named.rs:33-39 | one more entry adds its element, and its key's and value's problems after the earlier ones |
| `ElementNamed.FromMapping` | compiler/src/element/named.rs:30-44 | the counting loop over the entries gives exactly `BuildEntries` |
| `ElementNamed.NamedFromNode` | compiler/src/element/named.rs:21-50 | a sequence is read item by item with no name, a mapping entry by entry with the key's name, a scalar as a single element |
| `ElementNamed.ScalarKeyNamesElement` | compiler/src/element/named.rs:34-37 | a scalar key names its element verbatim and the value is built at `.key` under the collection |
| `ElementNumeric.NumericFromNode` | compiler/src/element/numeric.rs:16-35 | the trimmed scalar's `u32` value when it parses, with no problem; otherwise 0 and exactly one Fatal |
| `ElementNumeric.NumeralRoundTrip` | compiler/src/element/numeric.rs:18-20 | every `u32` written in decimal reads back as itself with no problem |
| `ElementQuality.QualityValueFromNamedNode` | compiler/src/element/quality.rs:132-183 | a mapping reads `name` (overriding the name passed in), `label`, `description`, `style`, `icon`; a scalar is a bare value reported unless empty; an empty sequence is a bare value; a longer one is reported and read as its first item |
| `ElementQuality.QualityFromMapping` | compiler/src/element/quality.rs:81-106 | each of `name` (overriding), `hidden`, `label`, `singularLabel`, `pluralLabel`, `description`, `values`, `style`, `exclusive`, `icon` is read by `from_key` under its own key |
| `ElementQuality.QualityFromNamedNode` | compiler/src/element/quality.rs:37-108 | a mapping is read field by field; a scalar is a bare quality reported unless empty; an empty sequence is bare; a longer one is reported and read as its first item |
| `ElementQuality.SingleItemQuality` | compiler/src/element/quality.rs:58-79 | a one-item sequence is its item at index 0, with the same name |
| `ElementQuality.WhitespaceQualityReported` | compiler/src/element/quality.rs:39-42 | a whitespace-only scalar is not blank to a quality: it is reported |
| `ElementStorylet.AssignmentFromMapping` | compiler/src/element/storylet.rs:405-426 | each of `set`, `unset`, `increase`, `decrease`, `increment`, `decrement` names a quality read under its own key, and `to` and `by` are expressions |
| `ElementStorylet.AssignmentFromNode` | compiler/src/element/storylet.rs:368-428 | a scalar sets the quality it names; an empty sequence does nothing; a longer sequence is reported and read as its first item at the same attribution; a mapping is read key by key |
| `ElementStorylet.ScalarAssignmentSets` | compiler/src/element/storylet.rs:370-381 | a bare quality name is the assignment `set: name`, with no other operation |
| `ElementStorylet.AssignFromNode` | compiler/src/element/storylet.rs:323-360 | a scalar is a list of one conditional assignment; a sequence a list of them; a mapping reads `description` and takes its assignments from `assignments` or, without that key, from the mapping itself |
| `ElementStorylet.ChoiceFromMapping` | compiler/src/element/storylet.rs:234-255 | each of `label`, `description`, `icon`, `body`, `push`, `shift`, `go`, `assign` is read under its own key |
| `ElementStorylet.ChoiceFromNode` | compiler/src/element/storylet.rs:232-295 | a mapping is read key by key; a scalar is an empty choice, reported unless blank; an empty sequence is empty; a longer one is reported and read as its first item |
| `ElementStorylet.ChoiceGroupFromNode` | compiler/src/element/storylet.rs:198-224 | a mapping reads `limit` and `shuffle` and takes its choices from `choices` or from the mapping itself; any other node is the list of choices with no limit and no shuffle |
| `ElementStorylet.ChooseFromNode` | compiler/src/element/storylet.rs:167-190 | a mapping reads `prompt` and takes its groups from `groups` or from the mapping itself; any other node is the list of groups with no prompt |
| `ElementStorylet.StoryletFromMapping` | compiler/src/element/storylet.rs:45-78 | `name` overrides the name passed in, and each of `when`, `if`, `unless`, `repeatable`, `label`, `description`, `icon`, `body`, `push`, `shift`, `go`, `choose`, `assign` is read under its own key |
| `ElementStorylet.StoryletFromNamedNode` | compiler/src/element/storylet.rs:43-130 | a mapping is read key by key; a scalar is a bare storylet, reported unless blank; an empty sequence is bare; a longer one is reported and read as its first item at the same attribution |
| `ElementStorylet.SingleItemStorylet` | compiler/src/element/storylet.rs:102-127 | a one-item sequence is its item at the same attribution, with the same name |
| `ElementTag.TagFromNode` | compiler/src/element/tag.rs:16-38 | a scalar is the tag trimmed and lower-cased with no problem; only Fatal problems, none exactly for a well-formed tag |
| `ElementTag.SingleItemTag` | compiler/src/element/tag.rs:19-28 | a one-item sequence gives its item's tag, one index deeper |
| `ElementTemplate.TemplateFromNode` | compiler/src/element/template.rs:16-28 | a scalar gives the template verbatim with no problem; a sequence or mapping reports one Fatal with its own message and gives the empty template |
| `ElementText.TextFromNode` | compiler/src/element/text.rs:16-28 | a scalar gives the text verbatim with no problem; a sequence or mapping reports one Fatal with its own message and gives the empty text |
| `ElementUri.UriFromNode` | compiler/src/element/uri.rs:16-28 | a scalar gives the URI trimmed with no problem; a sequence or mapping reports one Fatal with its own message and gives the empty URI |
| `ElementTrees.CollectionFromKey` | compiler/src/element.rs:80-96 | a collection key gives the elements of the collection built from its value, and nothing and no problem when absent |
| `ElementTrees.VersionProblems` | compiler/src/element.rs:101-105 | a declared version other than `0.1` adds exactly one Fatal at the version; no version or `0.1` adds none |
| `ElementTrees.TreeFromMappingFields` | compiler/src/element.rs:79-114 | the mapping branch reads `locations`, `qualities`, `storylets`, `meta` and `version` under their keys, and the version comparison ends the problems |
| `ElementTrees.TreeFromNode` | compiler/src/element.rs:47-116 | a mapping is read key by key; a scalar is an empty tree, reported unless empty; an empty sequence is an empty tree; a longer one is reported and read as its first item at index 0 spanning the first two items |
| `ElementTrees.OneItemRootUnreadable` | compiler/src/element.rs:76 | a one-item sequence root is exactly what the source cannot read: it indexes `sequence[1]` |
| `ElementTrees.Merge` | compiler/src/element.rs:118-148 | the collections of the first tree then the second; the first version and metadata win; metadata in both adds one Fatal at the first with the second as context, and no problem otherwise |
| `ElementTrees.MergeEmpty` | compiler/src/element.rs:118-148 | the empty tree is a unit of `merge` on both sides |
| `ElementTrees.MergeAssociative` | compiler/src/element.rs:118-148 | merging is associative in the tree it builds |
| `ElementTrees.TreeFromNodeReadsEveryRoot` | compiler/src/element.rs:47-116 | `from_node` is defined on every readable root |
| `ElementTrees.DocumentAttribution` | compiler/src/element.rs:162-166 | a lone document's root has no path; among several, document `i` is at `[i]`; both span the root's marks |
| `ElementTrees.RootlessDocumentSkipped` | compiler/src/element.rs:161 | a document without a root adds nothing |
| `ElementTrees.DocumentLocationsInOrder` | compiler/src/element.rs:159-169 | the locations of the documents are those of each document in document order |
| `ElementTrees.FromDocuments` | compiler/src/element.rs:150-172 | the loop over the documents merges each rooted one after those before it, exactly as `DocumentsSpec` says |
| `ElementTrees.DocumentsSpec` | compiler/src/element.rs:150-172 | the documents' trees merged in order, a rootless document skipped |
| `ElementTrees.MissingVersionProblems` | compiler/src/element.rs:190-195 | with at least one source and no version, one Fatal at line 0 of the last source; otherwise none |
| `ElementTrees.SourcesTree` | compiler/src/element.rs:174-198 | the tree merges every source in order, and the missing-version problem ends the problems |
| `ElementTrees.NoSources` | compiler/src/element.rs:174-198 | no source at all gives the empty tree and no problem |
| `ElementTrees.FromSources` | compiler/src/element.rs:174-198 | the loop over the sources and the version comparison give exactly `SourcesTree` |
| `ElementTrees.SourcesSpec` | compiler/src/element.rs:174-198 | the sources' trees merged in order, then the missing-version check |
| `YamlEvent.Problem` | compiler/src/yaml/error.rs:14-19 | a dataset error carries the problem and its mark, and no context |
| `YamlEvent.NextSpec` | compiler/src/yaml/context.rs:21-23 | the next event exists exactly while events remain, and is the one at the cursor |
| `YamlEvent.EventStream.constructor` | compiler/src/yaml/schema.rs:14-19 | the parser starts at the first event of its input |
| `YamlEvent.EventStream.Next` | compiler/src/yaml/context.rs:21-23 | `next` returns the event at the cursor and consumes it; on the parser's error the cursor stays |
| `YamlContext.StreamSpec` | compiler/src/yaml/context.rs:33-55 | a successful parse keeps the documents already read as a prefix; running out of events is the parser's error |
| `YamlContext.EmptyStream` | compiler/src/yaml/context.rs:33-55 | a stream start followed by the stream end holds no documents |
| `YamlContext.StreamStartSkipped` | compiler/src/yaml/context.rs:39 | a stream start event is skipped |
| `YamlContext.StreamEndReturns` | compiler/src/yaml/context.rs:43 | the stream end returns exactly the documents collected so far |
| `YamlContext.DocumentAppended` | compiler/src/yaml/context.rs:40-42 | a document start appends exactly the one document parsed from it and carries on after it |
| `YamlContext.UnexpectedEventFails` | compiler/src/yaml/context.rs:44-50 | any other event at stream level is "Expected a document" at that event's start |
| `YamlContext.ParsingContext.constructor` | compiler/src/yaml/context.rs:14-19 | the context reads from the given parser |
| `YamlContext.ParsingContext.Parse` | compiler/src/yaml/context.rs:33-55 | the loop returns exactly `StreamSpec` from the parser's position |
| `YamlDocument.NonPrimaryAppend` | compiler/src/yaml/document.rs:27-33 | one more directive adds itself to the non-primary list exactly when its handle is not "!" |
| `YamlDocument.PartitionKeepsOthers` | compiler/src/yaml/document.rs:27-33 | the non-primary directives are exactly the non-"!" ones in their order |
| `YamlDocument.PartitionWithoutPrimary` | compiler/src/yaml/document.rs:25-33 | there is no primary directive if and only if no handle is "!" |
| `YamlDocument.PartitionPrimaryIsLast` | compiler/src/yaml/document.rs:28-29 | the primary directive is a "!" directive with no "!" directive after it |
| `YamlDocument.FirstHandle` | compiler/src/yaml/document.rs:58 | the directive found is a non-primary one whose handle starts the tag; none found means no handle starts it |
| `YamlDocument.VerbatimTag` | compiler/src/yaml/document.rs:56-57 | "!<x>" resolves to x whatever the directives |
| `YamlDocument.ResolveTag` | compiler/src/yaml/document.rs:55-67 | `resolve_tag`: verbatim, then the first non-primary handle, then `!!`, then the primary prefix, else the tag kept, panicking where the source slices inside a char; the cases are stated by the tag lemmas beside it |
| `YamlDocument.SecondaryTag` | compiler/src/yaml/document.rs:60-61 | "!!x" resolves to `tag:yaml.org,2002:x` when no non-primary handle starts it |
| `YamlDocument.DirectiveBeforeSecondary` | compiler/src/yaml/document.rs:58-61 | a "!!" directive is tried before the core schema prefix and wins |
| `YamlDocument.PrimaryTag` | compiler/src/yaml/document.rs:62-63 | under a primary directive "!x" is its prefix then x |
| `YamlDocument.UnknownTagKept` | compiler/src/yaml/document.rs:64-66 | with no applicable directive any other tag is kept unchanged |
| `YamlDocument.FailsafeResolve` | compiler/src/yaml/schema.rs:31-38 | an untagged value gets the failsafe tag of its kind and is kept unchanged |
| `YamlDocument.ResolveNode` | compiler/src/yaml/node.rs:104-126 | the node keeps the value and marks; untagged it always succeeds with the default tag; tagged it succeeds exactly when `resolve_tag` does, with that tag |
| `YamlDocument.Define` | compiler/src/yaml/document.rs:77-79 | an anchor now names the node, replacing any earlier one; no anchor changes nothing |
| `YamlDocument.NodeSpec` | compiler/src/yaml/node.rs:188-230 | parsing only moves forward; an event that starts no node is "Expected a node"; an alias is the node last defined under it or "Undefined anchor"; an anchored node is defined under its anchor once complete |
| `YamlDocument.SequenceSpec` | compiler/src/yaml/node.rs:173-186 | a sequence consumes its end event and keeps the items read so far as a prefix of its items |
| `YamlDocument.MappingSpec` | compiler/src/yaml/node.rs:146-171 | a mapping consumes its end event and keeps at least the entries read so far |
| `YamlDocument.MappingRound` | compiler/src/yaml/node.rs:149-170 | one round of the mapping loop after the key event moves forward and builds a mapping |
| `YamlDocument.MappingStarts` | compiler/src/yaml/node.rs:149-154 | the mapping loop begins by reading the key event and running one round |
| `YamlDocument.EntrySpec` | compiler/src/yaml/node.rs:156-169 | an entry reads its key, then its value at that key in the path, moving forward |
| `YamlDocument.EntryKeyIsNew` | compiler/src/yaml/node.rs:158-165 | an entry that parses has a key equal to no key already in the mapping |
| `YamlDocument.DuplicateKeyFails` | compiler/src/yaml/node.rs:158-165 | a key equal to an earlier one is "Mapping contains duplicate key" at it, with "Already defined" at the earlier key |
| `YamlDocument.MappingSpecSorted` | compiler/src/yaml/node.rs:147-170 | every mapping built keeps its entries in strictly increasing key order, as the `BTreeMap` does |
| `YamlDocument.DocumentSpec` | compiler/src/yaml/document.rs:81-107 | a parsed document starts at the document start's mark and the parse moves forward |
| `YamlDocument.EmptyDocument` | compiler/src/yaml/document.rs:84-88 | a document end straight after the start is a rootless document ending at it |
| `YamlDocument.MissingDocumentEnd` | compiler/src/yaml/document.rs:93-106 | a root followed by anything but the document end is "Expected end of document" at that event |
| `YamlDocument.NodeOf` | compiler/src/yaml/node.rs:188 | the node result succeeds exactly when the parse does |
| `YamlDocument.DocumentContext.constructor` | compiler/src/yaml/document.rs:24-41 | the directives are split as `Partition` says and there are no anchors yet |
| `YamlDocument.DocumentContext.ResolveAlias` | compiler/src/yaml/document.rs:69-75 | the node defined under the anchor exactly when there is one |
| `YamlDocument.DocumentContext.DefineAnchor` | compiler/src/yaml/document.rs:77-79 | the anchor map gains or replaces exactly that anchor |
| `YamlDocument.DocumentContext.ParseNode` | compiler/src/yaml/node.rs:188-230 | the recursive parse returns exactly `NodeSpec` and leaves the cursor and anchors where it says |
| `YamlDocument.DocumentContext.ParseSequence` | compiler/src/yaml/node.rs:173-186 | the sequence loop returns exactly `SequenceSpec` |
| `YamlDocument.DocumentContext.ParseMapping` | compiler/src/yaml/node.rs:146-171 | the mapping loop returns exactly `MappingSpec` |
| `YamlDocument.DocumentContext.ParseEntry` | compiler/src/yaml/node.rs:156-169 | the loop body after the key event returns exactly `EntrySpec` |
| `YamlDocument.DocumentContext.Parse` | compiler/src/yaml/document.rs:81-107 | the document parse returns exactly `DocumentSpec` |
| `YamlPath.ElementText` | compiler/src/yaml/path.rs:10-24 | a key renders as "." and the key node, an index as "[i]" |
| `YamlPath.PathTextConcat` | compiler/src/yaml/path.rs:50-57 | the text of a joined path is the text of its parts one after the other |
| `YamlPath.Path.constructor` | compiler/src/yaml/path.rs:31-35 | a new path is empty |
| `YamlPath.Path.Push` | compiler/src/yaml/path.rs:37-39 | `push` appends exactly one element, and the text grows by that element's text |
| `YamlPath.Path.Clone` | compiler/src/yaml/path.rs:42-48 | a clone is a fresh path with the same elements |
| `YamlValue.AsScalar` | compiler/src/yaml/value.rs:15-21 | the string exactly for a scalar |
| `YamlValue.AsSequence` | compiler/src/yaml/value.rs:23-29 | the items exactly for a sequence |
| `YamlValue.AsMapping` | compiler/src/yaml/value.rs:31-37 | the entries exactly for a mapping |
| `YamlValue.StringNode` | compiler/src/yaml/node.rs:74-84 | a `str`-tagged scalar at the default marks |
| `YamlValue.StripNodes` | compiler/src/yaml/node.rs:44-48 | forgetting marks keeps the number of items |
| `YamlValue.StripEntries` | compiler/src/yaml/node.rs:44-48 | forgetting marks keeps the number of entries |
| `YamlValue.CompareStrings` | compiler/src/yaml/value.rs:125 | strings compare Equal exactly when they are equal |
| `YamlValue.CompareStringsFlip` | compiler/src/yaml/value.rs:125 | swapping two strings flips their order |
| `YamlValue.CompareValues` | compiler/src/yaml/value.rs:120-141 | values of different kinds order scalars above sequences above mappings |
| `YamlValue.SameNodeIsStrippedEquality` | compiler/src/yaml/node.rs:44-48 | node equality is equality once marks are forgotten |
| `YamlValue.SameValueIsStrippedEquality` | compiler/src/yaml/value.rs:76-102 | value equality is equality once marks are forgotten |
| `YamlValue.SameNodesIsStrippedEquality` | compiler/src/yaml/value.rs:86-92 | item-list equality is equality once marks are forgotten |
| `YamlValue.SameEntriesIsStrippedEquality` | compiler/src/yaml/value.rs:93-99 | mapping equality is equality once marks are forgotten |
| `YamlValue.SameEntryIsStrippedEquality` | compiler/src/yaml/value.rs:93-99 | entry equality is equality once marks are forgotten |
| `YamlValue.CompareEqualIsSame` | compiler/src/yaml/node.rs:57-72 | two nodes compare Equal if and only if they are equal |
| `YamlValue.CompareValuesEqualIsSame` | compiler/src/yaml/value.rs:120-141 | two values compare Equal if and only if they are equal |
| `YamlValue.CompareNodeListsEqualIsSame` | compiler/src/yaml/value.rs:131 | two item lists compare Equal if and only if they are equal |
| `YamlValue.CompareEntryListsEqualIsSame` | compiler/src/yaml/value.rs:136 | two mappings compare Equal if and only if they are equal |
| `YamlValue.CompareEntriesEqualIsSame` | compiler/src/yaml/value.rs:136 | two entries compare Equal if and only if they are equal |
| `YamlValue.CompareNodesFlip` | compiler/src/yaml/node.rs:63-72 | the node order is antisymmetric |
| `YamlValue.CompareNodes` | compiler/src/yaml/node.rs:58-72 | `Ord` for nodes: by tag, then by value, ignoring marks; the lemmas around it prove it a total order |
| `YamlValue.CompareNodesTrans` | compiler/src/yaml/node.rs:58-72 | the node order is transitive: `a <= b <= c` gives `a <= c`, strictly when either step is strict |
| `YamlValue.CompareValuesTrans` | compiler/src/yaml/value.rs:120-141 | the value order is transitive |
| `YamlValue.CompareStringsTrans` | compiler/src/yaml/value.rs:125 | the string order is transitive |
| `YamlValue.CompareNodeListsTrans` | compiler/src/yaml/value.rs:131 | the item-list order is transitive |
| `YamlValue.CompareEntryListsTrans` | compiler/src/yaml/value.rs:136 | the mapping order is transitive |
| `YamlValue.CompareEntriesTrans` | compiler/src/yaml/value.rs:136 | the entry order is transitive |
| `YamlValue.CompareValuesFlip` | compiler/src/yaml/value.rs:120-141 | the value order is antisymmetric |
| `YamlValue.CompareNodeListsFlip` | compiler/src/yaml/value.rs:131 | the item-list order is antisymmetric |
| `YamlValue.CompareEntryListsFlip` | compiler/src/yaml/value.rs:136 | the mapping order is antisymmetric |
| `YamlValue.CompareEntriesFlip` | compiler/src/yaml/value.rs:136 | the entry order is antisymmetric |
| `YamlValue.CompareIgnoresMarks` | compiler/src/yaml/node.rs:63-72 | nodes compare as their mark-free copies do |
| `YamlValue.CompareValuesIgnoresMarks` | compiler/src/yaml/value.rs:120-141 | values compare as their mark-free copies do |
| `YamlValue.CompareNodeListsIgnoresMarks` | compiler/src/yaml/value.rs:131 | item lists compare as their mark-free copies do |
| `YamlValue.CompareEntryListsIgnoresMarks` | compiler/src/yaml/value.rs:136 | mappings compare as their mark-free copies do |
| `YamlValue.CompareEntriesIgnoresMarks` | compiler/src/yaml/value.rs:136 | entries compare as their mark-free copies do |
| `YamlValue.FindKey` | compiler/src/yaml/node.rs:158 | the position found holds a key comparing Equal and no earlier one does; none found means no key compares Equal |
| `YamlValue.InsertionPoint` | compiler/src/yaml/node.rs:169 | a new key goes after every key not above it and before the first key above it |
| `YamlValue.Insert` | compiler/src/yaml/node.rs:169 | inserting adds exactly the one entry to the mapping's entries |
| `YamlValue.InsertKeepsOrder` | compiler/src/yaml/node.rs:169 | inserting a new key keeps the entries in strictly increasing key order |
| `YamlValue.NodeText` | compiler/src/yaml/node.rs:22-42 | a node shows "!<tag> " before its value exactly when its tag is not its kind's default |
| `YamlValue.ValueText` | compiler/src/yaml/value.rs:40-74 | a scalar shows raw; a sequence opens with "[" and closes with "]"; a mapping opens with "{" and closes with "]" |
| `YamlValue.NodeTextIgnoresMarks` | compiler/src/yaml/node.rs:22-42 | a node's display ignores marks |
| `YamlValue.ValueTextIgnoresMarks` | compiler/src/yaml/value.rs:40-74 | a value's display ignores marks |
| `YamlValue.NodeListTextIgnoresMarks` | compiler/src/yaml/value.rs:46-57 | a sequence's display ignores marks |
| `YamlValue.EntryListTextIgnoresMarks` | compiler/src/yaml/value.rs:58-71 | a mapping's display ignores marks |
| `YamlValue.EntryTextIgnoresMarks` | compiler/src/yaml/value.rs:66-68 | an entry's display ignores marks |
| `StateApi.SetRule` | engine/state/api/src/index.ts:28-37 | `set` stores exactly when the value is above the current one, reporting the old and the new value |
| `StateApi.UnsetRule` | engine/state/api/src/index.ts:39-50 | `unset` stores exactly when the value is positive and below the current one, reporting the old and the new value |
| `StateApi.IncrementRule` | engine/state/api/src/index.ts:52-62 | `increment` stores the sum exactly when the step is positive |
| `StateApi.DecrementRule` | engine/state/api/src/index.ts:64-74 | `decrement` stores the difference floored at 0; on a value that is not negative it stores exactly when both the value and the step are positive, and the stored value is below the old one and not negative |
| `StateApi.Max` | engine/state/api/src/index.ts:66 | `Math.max`: at least both arguments and one of them |
| `InMemoryDriver.Stored` | engine/state/drivers/in-memory-driver/src/index.ts:78-84 | after `update` the name reads as the value, an entry exists exactly when the value is not 0, and every other name is untouched |
| `InMemoryDriver.Step` | engine/state/drivers/in-memory-driver/src/index.ts:64-109 | the state after one operation of the transaction interface, each quality rule applied to the stored value |
| `InMemoryDriver.Run` | engine/state/drivers/in-memory-driver/src/index.ts:64-109 | the state after a run of operations, in order |
| `InMemoryDriver.StepKeepsPositive` | engine/state/drivers/in-memory-driver/src/index.ts:64-109 | every operation keeps every stored value positive |
| `InMemoryDriver.RunKeepsPositive` | engine/state/drivers/in-memory-driver/src/index.ts:64-109 | any run of operations keeps every stored value positive |
| `InMemoryDriver.RulesAreMonotone` | engine/state/api/src/index.ts:28-74 | `set` never lowers a quality, `unset` and `decrement` never raise one; no other quality, the location and the storylet are untouched |
| `InMemoryDriver.DecrementStaysNatural` | engine/state/api/src/index.ts:64-74 | a value that is not negative stays so under `decrement`, and goes down exactly when it and the step are positive |
| `InMemoryDriver.UnsetZero` | engine/state/api/src/index.ts:39-50 | `unset` to 0 changes nothing |
| `InMemoryDriver.SetStoryletCountsPrevious` | engine/state/drivers/in-memory-driver/src/index.ts:95-109 | `setStorylet` counts the current storylet once more and makes the new id current, leaving the location |
| `InMemoryDriver.LocationVisitCounts` | engine/state/drivers/in-memory-driver/src/index.ts:86-89 | each `setLocation` makes the location current and counts one more visit |
| `InMemoryDriver.Transaction.constructor` | engine/state/drivers/in-memory-driver/src/index.ts:50-53 | a transaction starts from the state it is given |
| `InMemoryDriver.Transaction.Get` | engine/state/drivers/in-memory-driver/src/index.ts:70-72 | the stored value, or 0 for a name without one |
| `InMemoryDriver.Transaction.GetLocation` | engine/state/drivers/in-memory-driver/src/index.ts:74-76 | the current location |
| `InMemoryDriver.Transaction.GetStorylet` | engine/state/drivers/in-memory-driver/src/index.ts:102-104 | the current storylet |
| `InMemoryDriver.Transaction.Update` | engine/state/drivers/in-memory-driver/src/index.ts:78-84 | the qualities become `Stored` and nothing else changes |
| `InMemoryDriver.Transaction.Set` | engine/state/api/src/index.ts:28-37 | reports `SetRule` and moves to the state `Step` gives |
| `InMemoryDriver.Transaction.Unset` | engine/state/api/src/index.ts:39-50 | reports `UnsetRule` and moves to the state `Step` gives |
| `InMemoryDriver.Transaction.Increment` | engine/state/api/src/index.ts:52-62 | reports `IncrementRule` and moves to the state `Step` gives |
| `InMemoryDriver.Transaction.Decrement` | engine/state/api/src/index.ts:64-74 | reports `DecrementRule` and moves to the state `Step` gives |
| `InMemoryDriver.Transaction.SetLocation` | engine/state/drivers/in-memory-driver/src/index.ts:86-89 | moves to the state `Step` gives: the location is current and counted once more |
| `InMemoryDriver.Transaction.UnsetLocation` | engine/state/drivers/in-memory-driver/src/index.ts:91-93 | no location is current; nothing else changes |
| `InMemoryDriver.Transaction.CommitStorylet` | engine/state/drivers/in-memory-driver/src/index.ts:95-100 | a current non-empty storylet is counted once more and no longer current; otherwise nothing changes |
| `InMemoryDriver.Transaction.SetStorylet` | engine/state/drivers/in-memory-driver/src/index.ts:106-109 | commits the current storylet, then makes the id current |
| `InMemoryDriver.Transaction.Clear` | engine/state/drivers/in-memory-driver/src/index.ts:64-68 | the state becomes empty |
| `InMemoryDriver.Transaction.Perform` | engine/state/api/src/index.ts:7-20 | each operation of the transaction interface moves to the state `Step` gives |
| `InMemoryDriver.StateDriver.constructor` | engine/state/drivers/in-memory-driver/src/index.ts:12-17 | the given state, or the empty one when none is given |
| `InMemoryDriver.StateDriver.GetState` | engine/state/drivers/in-memory-driver/src/index.ts:19-26 | the committed state |
| `InMemoryDriver.StateDriver.Begin` | engine/state/drivers/in-memory-driver/src/index.ts:28-35 | a fresh transaction on the committed state |
| `InMemoryDriver.StateDriver.Commit` | engine/state/drivers/in-memory-driver/src/index.ts:37-39 | the transaction's state becomes the committed one |
| `InMemoryDriver.StateDriver.WithTransaction` | engine/state/drivers/in-memory-driver/src/index.ts:28-43 | a transaction that completes commits the run of its operations; one that fails leaves the committed state unchanged |
| `Models.ParseExpression` | compiler/src/model.rs:317-329 | an absent expression is nothing and adds no problem; a present one only appends the parser's problems |
| `Models.ParseTemplate` | compiler/src/model.rs:303-315 | an absent template is nothing and adds no problem; a template that parses to no node is nothing; problems are only appended |
| `Models.TextOf` | compiler/src/model.rs:568-575 | a text that parses to no node is nothing; problems are only appended |
| `Models.ParseText` | compiler/src/model.rs:331-343 | an absent text is nothing and adds no problem; a present one is read as one text element |
| `Models.ConditionsSpec` | compiler/src/model.rs:345-353 | the contextual condition comes first; with no `when`, `if` or `unless` the conditions are the contextual one alone, with no new problem |
| `Models.Joined` | compiler/src/model.rs:243-245 | no condition gives nothing, one stands alone, and several are joined by `And` |
| `Models.ParseCondition` | compiler/src/model.rs:345-364 | any condition at all comes back wrapped in a non-empty `And`; with none there is no condition and no problem |
| `Models.ChainSpec` | compiler/src/model.rs:228-257 | folding no element leaves the chain as it was; folding any element yields a chain |
| `Models.ConditionalSpec` | compiler/src/model.rs:225-262 | an absent list is nothing and adds no problem; a present list yields a chain exactly when it has an element |
| `Models.RequiredName` | compiler/src/model.rs:288-294 | a name is its normal form, and checking it only appends problems |
| `Models.UnconditionalCuts` | compiler/src/model.rs:254-256 | an element without conditions discards the chain built from the elements after it |
| `Models.ConditionalLastReported` | compiler/src/model.rs:249-253 | a last element with a condition adds the "Last option must be unconditional" Fatal at the list and is taken as `Always` |
| `Models.TwoOptions` | compiler/src/model.rs:225-262 | a conditional URI then an unconditional one is "the first if its condition holds, else the second", with no problem |
| `Models.Collect` | compiler/src/model.rs:594-735 | the values collected keep those already collected as a prefix, and are at most one per element |
| `Models.CountKept` | compiler/src/model.rs:735 | the elements kept are at most all of them |
| `Models.CollectCount` | compiler/src/model.rs:735 | when a value is yielded exactly for the elements a test accepts, exactly that many are collected |
| `Models.CollectTotal` | compiler/src/model.rs:536 | when a value is always yielded, every element is collected |
| `Models.CollectAll` | compiler/src/model.rs:735 | a property of every value yielded holds of everything collected |
| `Models.CollectQuiet` | compiler/src/model.rs:568-576 | a step that adds no problem gives a collection that adds none |
| `Models.PrefixTransitive` | compiler/src/model.rs:221 | problems appended after problems appended keep the first list as a prefix |
| `Models.Assigned` | compiler/src/model.rs:373-386 | `set` and `unset`: the subject is the required quality's normal form, the operation is the key's, and a missing `to` defaults to 1 for `set` and 0 for `unset` |
| `Models.Stepped` | compiler/src/model.rs:421-434 | `increment` and `decrement`: the subject is only normalised, and a missing `by` defaults to 1 |
| `Models.Changed` | compiler/src/model.rs:387-420 | `increase` and `decrease`: a parsing `to` makes the operation `set` or `unset`; otherwise it steps by `by`, defaulting to 1 |
| `Models.AssignmentSpec` | compiler/src/model.rs:370-438 | only the first key present counts; an assignment is kept exactly when some key is present; with none, the last problem is the "No assignment subject or operator found" Fatal at it; any condition is `And`-wrapped |
| `Models.AssignGroupSpec` | compiler/src/model.rs:368-445 | every assignment group is kept |
| `Models.AssignmentsKept` | compiler/src/model.rs:370-439 | a group keeps exactly the assignments with an operation key |
| `Models.ParseAssignments` | compiler/src/model.rs:366-455 | an absent list is nothing and adds no problem; a present list yields groups exactly when it has one |
| `Models.ChoiceLabel` | compiler/src/model.rs:507-512 | a choice's label is never empty; a missing one adds the "Every choice must have a label" Fatal at the choice and reads "Unlabeled" |
| `Models.ChoiceSpec` | compiler/src/model.rs:504-529 | every choice is kept, labelled, and its condition is `And`-wrapped |
| `Models.ChoiceGroupSpec` | compiler/src/model.rs:501-536 | every choice group is kept |
| `Models.EveryChoiceKept` | compiler/src/model.rs:504-529 | a group keeps every one of its choices, each with a label |
| `Models.ParseChoose` | compiler/src/model.rs:499-544 | no `choose` block is nothing and adds no problem; a block keeps one group per group element |
| `Models.StoryletCondition` | compiler/src/model.rs:461-489 | the contextual condition comes first; a storylet that is not repeatable ends its condition with "not visited"; there is no condition only for a repeatable storylet without a contextual one; problems are only appended |
| `Models.StoryletSpec` | compiler/src/model.rs:457-560 | a storylet is kept exactly when named, with that name; an unnamed one adds the "Every storylet must have a name" Fatal at it and nothing else; the first and last conditions are as `StoryletCondition` says |
| `Models.HasTagSnoc` | compiler/src/model.rs:669-710 | a tag appears among the tags and one more exactly when it appears among the first or is the last |
| `Models.StyleFlags` | compiler/src/model.rs:667-714 | the style block exists exactly when some tag is known, and each flag is set exactly when its tag appears |
| `Models.ValueSpec` | compiler/src/model.rs:611-637 | a value is kept exactly when named, with that name; an unnamed one adds its Fatal; a hidden quality's value is only its name, with no problem |
| `Models.ValuesSpec` | compiler/src/model.rs:610-646 | absent values are nothing and add no problem; values that are kept are never an empty list |
| `Models.NamedValuesKept` | compiler/src/model.rs:611-643 | exactly the named values are kept |
| `Models.QualitySpec` | compiler/src/model.rs:594-734 | a quality is kept exactly when named, with its name, hidden and exclusive flags; an unnamed one adds the "Every quality must have a name" Fatal at it and nothing else |
| `Models.HiddenQuality` | compiler/src/model.rs:648-660 | a hidden quality has no label, description, icon or style, and its values carry only their names |
| `Models.LocationLabel` | compiler/src/model.rs:744-748 | a location's label is never empty; a missing one is its name as plain text |
| `Models.LocationSpec` | compiler/src/model.rs:741-768 | a location is kept exactly when named, with that name and a label; an unnamed one adds the "Every location must have a name" Fatal at it and nothing else |
| `Models.LocalStoryletsWithin` | compiler/src/model.rs:752-757 | every storylet a location holds has "the player is in this location" as its first condition |
| `Models.LocationsSpec` | compiler/src/model.rs:741-769 | the locations and storylets already built are kept as prefixes |
| `Models.NamedLocationsKept` | compiler/src/model.rs:741-769 | exactly the named locations are kept |
| `Models.MetaSpec` | compiler/src/model.rs:564-592 | without metadata the block is empty and adds no problem |
| `Models.PipelineTextKept` | compiler/src/model.rs:568-575 | with the text parser of this project, a text is never dropped and adds no problem |
| `Models.EveryCreditKept` | compiler/src/model.rs:564-585 | with that parser every title, description and credit is kept and the block adds no problem |
| `Models.NamedQualitiesKept` | compiler/src/model.rs:594-735 | exactly the named qualities are kept |
| `Models.NamedStoryletsKept` | compiler/src/model.rs:737-739 | exactly the named top-level storylets are kept |
| `Models.NamedEntitiesKept` | compiler/src/model.rs:563-780 | the model keeps exactly the named qualities and locations, and at least the named top-level storylets |
| `Models.Parse.constructor` | compiler/src/model.rs:201-210 | the parsers over the symbols, and the problems so far |
| `Models.Parse.ParseConditional` | compiler/src/model.rs:225-301 | the backward loop over the list gives exactly `ConditionalSpec` and its problems |
| `Models.Parse.Link` | compiler/src/model.rs:229-256 | one round of the loop gives exactly one fold step and its problems |
| `Models.Parse.ParseStyle` | compiler/src/model.rs:667-714 | the style loop gives exactly the block and problems `StyleOf` says |
| `Models.Parse.ParseQuality` | compiler/src/model.rs:595-734 | one quality gives exactly `QualitySpec` and its problems |
| `Models.Parse.ParseQualities` | compiler/src/model.rs:594-735 | the quality loop gives exactly the named qualities `Collect` yields and its problems |
| `Models.Parse.ParseModel` | compiler/src/model.rs:563-780 | `parse_model` gives exactly the metadata, qualities, storylets and locations of `BuildSpec` |
| `Models.BuildSpec` | compiler/src/model.rs:563-780 | `parse_model` on values: meta, qualities, top-level storylets and locations in that order, the problems threaded through |
| `Models.Parse.ParseLocations` | compiler/src/model.rs:741-769 | the location loop, with each location's storylets appended, gives exactly `LocationsSpec` |
| `Models.ParseElementTree` | compiler/src/model.rs:198-213 | the symbols are extracted from the whole tree first, and the model is exactly `ModelSpec` |
| `Models.ModelSpec` | compiler/src/model.rs:198-213 | the symbols extracted from the whole tree, then `BuildSpec` over them |

## Left out

- Filesystem access and the command-line front end: files are read elsewhere, and the model starts from YAML events and source strings.
- The libyaml parser: the model takes its event stream as input, and an I/O or syntax error becomes a single parser error at the end of the events.
- The YAML `Json` and `Core` schemas and the regex that classifies plain scalars: the compiler does not use them (their constructors are commented out), and scalars are resolved by tag only.
- The error and result wrapper types of the YAML layer: their kinds become the model's error values.
- Marks are modelled as a plain datatype with a line and a column; the byte index of the YAML parser's marks is not kept.
- `Hash` for YAML values and nodes is not modelled; equality and ordering are proved to ignore marks instead.
- Serde derive machinery: the text module models the serialised shapes and the round trip, not JSON encoding.
- The regex used by name normalisation: `Symbols.Normalize` collapses whitespace and lower-cases characters directly.
- Character classes: `IsWhitespace` follows Unicode White_Space, but `IsAlphanumeric` accepts every char up to U+024F that is a letter or digit of ASCII, Latin-1, Latin Extended-A or Latin Extended-B, and nothing above it; lower-casing maps only ASCII and Latin-1 capitals to single characters.
- The text lexer (compiler/src/text/lexer.rs) is modelled as the template lexer with tags switched off; `TemplateLexerFacts.TextLexerHasNoTags` states that this lexer never yields a tag.
- The `paragraph_before` flag of the template parser (`paragraph_precedes`) is not modelled: it is only passed on to nested branches and never changes a result.
- `u32` overflow while folding constants is modelled as a panic, the debug-build behaviour; release builds wrap.
- The `push` and `shift` fields of a storylet or choice are read and validated as elements, but the model builder ignores them, as the source does.
- Models.Parse.ParseModel: it is not proved that the final problem list extends the initial one across the whole model; each step states its own problems.
- Models.AssignmentSpec: the default values of an assignment are stated only for the case where the element is absent.
- ElementQuality.QualityFromMapping: states the fields read under their keys, not the problems those reads report.
- ElementQuality.QualityValueFromNamedNode: for a mapping, states the fields read, not the problems they report.
- ElementLocation.LocationFromNamedNode: for a mapping, states the fields read, not the problems they report.
- ElementStorylet.StoryletFromMapping: states the fields read under their keys, not the problems those reads report.
- ElementStorylet.ChoiceFromMapping: states the fields read under their keys, not the problems those reads report.
- ElementStorylet.AssignmentFromMapping: states the fields read under their keys, not the problems those reads report.
- ElementMeta.MetaFromNode: for a mapping, states the fields read, not the problems they report.
- ElementConditional.ConditionalFromNode: for a mapping, the ensures does not state the problems; the body collects them from `when`, `if` and `unless`, then from the element.
- ElementTrees.TreeFromNode: it requires a readable root; a one-item root sequence panics in the source, and `ElementTrees.OneItemRootUnreadable` exhibits this instead.
- InMemoryDriver.StateDriver.Rollback has no contract beyond its frame: the in-memory driver's rollback does nothing.
- The serialised queue of the state store (serialized.ts): `WithTransaction` runs begin, perform and commit or rollback in sequence; concurrency and `async` are not modelled.
- JavaScript numbers in the state store are modelled as integers: no fractions, NaN or infinity.
- The runtime local driver, the local-storage driver, the browser interface and the engine's content type declarations are not part of this model.
