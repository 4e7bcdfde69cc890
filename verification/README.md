# icu message formats in Dafny

A model of the template engine of the Go package `icu` (cognicraft/icu),
which renders ICU MessageFormat-style templates such as
`Hello {name}, you have {count, plural, one {# message} other {# messages}}.`
The model has these parts:

- **Lexer** (`lexer.dfy`, properties in `lexer_properties.dfy`). The lexer's
  state functions (`lexMessage`, `lexQuote`, `lexAction`, `lexSpace`,
  `lexIdentifier`, `lexLeftDelim`, `lexRightDelim`, `lexDelim`) become one
  pure `Step` over the runes of the template. The brace depth chooses
  between message mode and action mode. Go's remainder truncates toward
  zero, so `depth % 2` is modelled with `GoInts.Rem`.
- **Lexer termination.** The Go lexer does not always stop. At end of input
  `lexAction` and `lexQuote` spin without consuming anything, so `"{abc"`
  and `"'{x"` never send EOF. `Run` reports such a run as `Stuck`, together
  with the tokens sent before it.
- **Parser** (`parser.dfy`, properties in `parser_properties.dfy`). `parse`
  is a stack machine over the token list. An Identifier is read according
  to the node on top of the stack. `offset` and case selectors look ahead.
  End tokens pop back to their start markers.
- **Parser failures.** `parse` never returns an error. Instead it panics, on
  an empty-stack pop or a failed type assertion, or it never returns: it
  loops forever reading a closed channel, or waits forever on a stuck
  lexer. Each call returns an `Outcome`: `Returned`, `Panicked` or
  `Diverges`.
- **Evaluator and plural rules** (`eval.dfy`, `plural.dfy`, `values.dfy`,
  `ast.dfy`). Every node's `translate` renders against a context. The
  plural and selectordinal nodes rebind their key to `n - offset`, and that
  binding persists after the node returns, so `Render` passes the context
  on to the next node. The cardinal and ordinal category tables are pure
  integer rules.
- **Entry points** (`messageformat.dfy`, `translator.dfy`,
  `specification.dfy`): `Translate`, `ParametersFrom`, the hierarchical
  translator's fallback chain, and splitting an Accept-Language
  specification into quality ranges sorted by a stable sort.
- **Go library helpers** (`goints.dfy`, `gostrings.dfy`): the integer and
  string functions the code calls. These are int64 wrap-around,
  `strconv.Atoi`, `strings.Index`, `strings.Split` and `strings.TrimSpace`.

Go strings are byte strings, but here a template is a sequence of runes.
Every cursor move the code makes is by whole runes, and every delimiter it
compares against is ASCII, so this changes no token.

## Model

| member | source | states |
|---|---|---|
| Lexer.SkipSpaces | lexer.go:223-229 | the space run ends at the first rune that is not a space or tab, and every rune skipped is one |
| Lexer.Step | lexer.go:109-240 | one state function keeps the cursor invariants (`start <= pos <= len`), and the lexer halts only from message mode at end of input |
| Lexer.StepProgress | lexer.go:157-240 | a step changes nothing exactly in the two spinning configurations (action mode or an open quote at end of input); every other step consumes a rune or moves to a state closer to consuming one |
| Lexer.Run | lexer.go:29-35 | no contract of its own beyond termination; what a run sends is stated by `Lexer.RunExtends` |
| Lexer.RunExtends | lexer.go:29-61 | a run only appends to the tokens already sent, and a run that gets stuck sends no EOF |
| Lexer.Lex | lexer.go:10-35 | no contract of its own; its token stream is stated by `LexEndsWithEof`, `LexDropsOnlyQuotes`, `LexDepthParity`, `PlainTextLexes`, `PlaceholderLexes`, `QuotedLexes` and `LexerTables.TableLexes` |
| Lexer.IsAlphaNumeric | lexer.go:321-323 | no contract of its own; stated by `Lexer.NameRunes` |
| Lexer.NameRunes | lexer.go:321-323 | `=`, `-` and `_` continue a name, so `=0`, `given-name` and `num_guests` are one identifier each; braces, `,`, `#`, the apostrophe, blanks, `:`, `%` and `.` end one |
| LexerProperties.PlainTextLexes | lexer.go:109-155 | text without braces, `#` or doubled apostrophes lexes to one Text token holding all of it, then EOF (only EOF when empty) |
| LexerProperties.QuotedSpan | lexer.go:157-174 | a quoted span yields the text strictly between the quotes; a second apostrophe right after the closing one reopens quoting, with that apostrophe starting the next quoted text |
| LexerProperties.QuoteOpens | lexer.go:120-130 | in message mode an apostrophe followed by `{`, `}` or another apostrophe sends the text before it, is dropped, and opens a quoted span right after it |
| LexerProperties.ApostropheStays | lexer.go:120-133 | any other apostrophe, including one at the end of the template, stays part of the text and opens nothing |
| LexerProperties.QuotedLexes | lexer.go:109-174 | `a'{q'b` with plain pieces lexes to the text of `a`, one quoted-text token holding exactly what lies between the apostrophes, the text of `b` and EOF |
| LexerProperties.LexDropsOnlyQuotes | lexer.go:58-174 | concatenating the token values gives the template with some apostrophes deleted: every other rune is kept, in order, and nothing is added; a stuck lexer has sent a prefix of such a text |
| LexerProperties.LexKeepsQuotelessText | lexer.go:58-174 | a template without apostrophes that lexes to the end gives tokens whose values concatenate to the template itself |
| LexerProperties.LexDepthParity | lexer.go:176-196 | `{` is StartAction exactly when the new depth is odd by truncating remainder, and `}` is EndMessage exactly when the new depth is odd; text, quoted text and `#` occur only at even depth, identifiers and spaces only at odd depth |
| LexerProperties.LexEndsWithEof | lexer.go:146-151 | a finished lexer sends exactly one EOF, last and empty; a stuck one sends none |
| LexerProperties.PlaceholderLexes | lexer.go:176-240 | `a{k}b` with plain pieces and an alphanumeric name lexes to the text of `a`, `{`, the identifier `k`, `}`, the text of `b` and EOF |
| Parser.OffsetOf | parse.go:479-502 | the offset is `Atoi` of the token after its first byte when that byte is ASCII, signs and int64 clamping included; a non-ASCII first rune leaves a non-number, so the offset is 0 |
| Parser.ReadOffset | parse.go:499-502 | reading the offset panics on an empty token (and on the zero token of a closed channel), waits forever on an open channel, and otherwise yields `OffsetOf` |
| Parser.SkipPastStartMessage | parse.go:509-515 | the skip loop stops just past the first StartMessage at or after the cursor, and waits forever exactly when there is none |
| Parser.Unwind | parse.go:558-569 | popping back to a marker panics exactly when the marker is not on the stack; otherwise it splits the stack at the marker's last occurrence |
| Parser.CloseMessage | parse.go:535-557 | EndMessage succeeds exactly when the last StartMessage sits on a selector; the popped nodes become that selector's case body in the node below, which is dropped if it is not plural-like or select |
| Parser.CloseAction | parse.go:558-569 | EndAction panics exactly when no StartAction is on the stack; otherwise the nodes above the last one become one nested message in its place |
| Parser.Formatter | parse.go:401-451 | the formatter name selects the node kind, keeping the key, with empty style, offset 0 and no cases; every unknown name becomes a custom formatter with no arguments |
| Parser.OpenCase | parse.go:476-529 | a case selector adds an empty case for that name and pushes the selector and a StartMessage; it resumes just past the first StartMessage token after the selector, and waits forever exactly when no StartMessage follows |
| Parser.OnIdentifier | parse.go:395-534 | an identifier only rewrites the top of the stack and pushes above it; after `{` it pushes a placeholder; the key of a keyed node survives; only `offset` after a plural-like node can panic |
| Parser.Loop | parse.go:373-574 | the parser returns only if an EOF token is reached |
| Parser.Parse | parse.go:373-384 | no contract of its own; it is `Parser.Loop` from the first token with an empty stack |
| Parser.ParseTemplate | parse.go:373-377 | no contract of its own; its results are stated by `PlainTextParses`, `PlaceholderParses`, `QuotedParses`, `StuckLexerNeverParses` and `ParserTables.TableParses` |
| ParserProperties.IdentifierDispatch | parse.go:395-534 | an identifier after `{` names a placeholder; after a placeholder it picks the formatter; it replaces a simple formatter's style, is appended to a custom formatter's arguments, makes `offset` read the next token after a plural-like node, and is ignored elsewhere |
| ParserProperties.PlainStreamParses | parse.go:379-394 | a stream of text, quoted-text and `#` tokens up to EOF parses to the same nodes in input order |
| ParserProperties.PlainTextParses | parse.go:373-394 | plain text parses to one text node, or to no node when empty |
| ParserProperties.StuckLexerNeverParses | parse.go:376-384 | a template the lexer gets stuck on never yields a message |
| ParserProperties.PlaceholderParses | parse.go:385-400 | `a{k}b` parses to the text of `a`, a nested message holding the placeholder `k`, and the text of `b` |
| ParserProperties.QuotedParses | parse.go:373-394 | `a'{q'b` parses to the text of `a`, one quoted-text node holding `q`, and the text of `b` |
| ParserProperties.ClosePlaceholder | parse.go:558-569 | closing `{k` replaces the StartAction and the placeholder with a message holding the placeholder |
| Ast.Find | parse.go:285 | the lookup finds the first entry for a selector, and finds none exactly when no entry has that selector |
| Ast.Get | parse.go:285 | a case body is found exactly when an entry has that selector |
| Ast.Put | parse.go:544-551 | after storing a body under a selector, that selector maps to the body and every other selector is unchanged |
| Ast.PutPut | parse.go:504-551 | storing twice under one selector is the same as storing only the second body, so a repeated case keeps its last body |
| Eval.HashText | parse.go:99-112 | `#` shows the value when exactly one name not starting with `$` is bound, and is `#` otherwise |
| Eval.Choose | parse.go:285-299 | the case chosen is the first candidate selector the table holds; none is chosen exactly when it holds no candidate |
| Eval.ChooseFirstHit | parse.go:284-299 | when the m-th candidate is the first one the table holds, the case chosen is the entry for that candidate |
| Eval.Render | parse.go:83-371 | rendering a node keeps the tag and the set of bound names, changes values only to ints, and changes only names that a plural-like node inside it rebinds |
| Eval.RenderPlural | parse.go:278-336 | a plural or selectordinal node changes only its own key and names rebound in its cases, and rebinds only to ints |
| Eval.RenderSelect | parse.go:343-357 | a select node changes only names rebound inside its cases |
| Eval.PluralRenders | parse.go:278-335 | a plural or selectordinal node with its key bound renders the body of the first candidate its table holds (`=v`, then the category of the value minus the offset, then `other`), with the key rebound to the value minus the offset while the body renders |
| Eval.SelectRenders | parse.go:343-356 | a select node with its key bound renders, in the unchanged context, the body of the case named by the value's text, or else of `other` |
| Eval.SelectMisses | parse.go:343-356 | a select node whose key is unbound, or whose table holds neither the value's text nor `other`, renders nothing and rebinds nothing |
| Eval.FormatValue | parse.go:137-216 | no contract of its own; stated by `Eval.NumberDefaultStyle` and `Eval.PlainFormatsShow`; number and date formatting themselves are the `Formatters` parameter |
| Eval.NumberDefaultStyle | parse.go:137-146 | a number formatter without a style formats exactly as with the style `%v` |
| Eval.PlainFormatsShow | parse.go:167-216 | the time, ordinal, duration and spellout formatters ignore their style and render exactly what a bare placeholder for the same key renders |
| Eval.CustomText | parse.go:365-371 | no contract of its own; stated by `Eval.CustomRenders` |
| Eval.CustomRenders | parse.go:365-371 | a custom formatter with its key bound prints its name, then the value and its arguments in parentheses, the arguments as a Go string slice: `name(v,[])`, `name(v,[a])`, `name(v,[a b])` |
| Eval.RenderAll | parse.go:85-91 | rendering a message keeps the tag and the bound names, and changes only names rebound inside it |
| Eval.RenderAllAppend | parse.go:85-91 | rendering a concatenation renders the first part, then the second in the context the first left behind, and joins the texts |
| Eval.VerbatimRenders | parse.go:93-118 | text and quoted-text nodes render verbatim and leave the context unchanged |
| Eval.UnboundKeyRendersNothing | parse.go:124-216 | every node that names a parameter renders nothing when the parameter is unbound |
| Eval.SelectKeepsContext | parse.go:343-357 | a select node whose cases rebind nothing leaves the context unchanged |
| Eval.PluralRebinds | parse.go:278-303 | after a plural node picks a case, its key is bound to the int value minus the offset, with int64 wrap-around |
| Eval.PluralMisses | parse.go:278-299 | a plural node whose key is unbound, or whose table holds none of `=value`, the category and `other`, renders nothing and leaves the context unchanged |
| PluralRules.Cardinal | parse.go:228-242 | `one` exactly for n = 1 in de/es/bg/pt/en/it; `other` for the other numbers there and for every number in zh; `""` for any other tag |
| PluralRules.Ordinal | parse.go:244-270 | `other` for es/bg/pt/zh/de; in it, `many` exactly for 8, 11, 80 and 800; the English rule for en; `""` for any other tag |
| PluralRules.EnglishOrdinalNegative | parse.go:255-266 | a negative number is `other` in English, because its truncated remainders are never positive |
| PluralRules.EnglishOrdinalPeriodic | parse.go:255-266 | the English ordinal category of a natural number repeats every 100 |
| PluralRules.EnglishOrdinalExamples | messageformat_test.go:60-63 | 1 is `one`, 2 is `two`, 33 is `few` and 14 is `other`, and so are the teens 11, 12, 13 and 111 |
| GoInts.Rem | parse.go:256-257 | the remainder has the sign of the dividend, is smaller than the divisor in size, and differs from the dividend by a multiple of the divisor |
| GoInts.Sub | parse.go:287-288 | int64 subtraction is exact when the difference fits, and otherwise wraps modulo 2^64 |
| GoInts.Atoi | parse.go:481-501 | an optionally signed digit string gives its value, clamped to int64; a leading digit run past the uint64 range saturates to the int64 bound of its sign even when junk follows it; any other string, the empty one included, gives 0 |
| GoInts.AtoiDecimal | parse.go:501 | `Atoi` reads back every int64 written in decimal |
| GoInts.ScanMatchesDigitRun | parse.go:481-501 | reading digits left to right saturates exactly when the leading digit run exceeds the uint64 range; otherwise it fails at the first non-digit or yields the run's value |
| GoInts.AtoiOverflowBeforeJunk | parse.go:481-501 | twenty nines followed by `x` read as the largest int64, and with a leading `-` as the smallest, because the overflow is met before the junk |
| GoInts.AtoiJunk | parse.go:481-501 | junk met before any overflow, as in `12x`, gives 0 |
| GoStrings.Index | parse.go:45 | the index is the first occurrence of the separator, or -1 exactly when there is none |
| GoStrings.Split | specification.go:17-19 | the parts joined by the separator give back the string; no part contains the separator; one part exactly when the string has none |
| GoStrings.TrimSpace | specification.go:20 | trimming removes leading and trailing white space only, and the result neither starts nor ends with white space |
| GoStrings.LessIsStrictTotalOrder | messageformat.go:40 | lexicographic name comparison is irreflexive, transitive, asymmetric and total (comparing runes orders UTF-8 strings as comparing bytes does) |
| Values.P | messageformat.go:42-47 | a parameter carries exactly the given name and value |
| Values.Show | parse.go:124-130 | no contract of its own; stated by `Values.ShowIntInjective` and `Values.ShowReadsBack` |
| Values.ShowReadsBack | parse.go:124-130 | an int prints in decimal, and `Atoi` reads the printed text back to the same int |
| Values.ParamLessByNameOnly | messageformat.go:38-40 | parameters are ordered by name only: the values never matter, and two parameters with one name are unordered |
| Values.ShowIntInjective | parse.go:284-285 | two ints print alike exactly when they are equal, so an `=n` case matches only the value n |
| Values.Language | parse.go:45-49 | a tag whose first `-` is not its first rune is cut just before that `-`, leaving a non-empty dash-free head; a tag without `-` or starting with one stays whole |
| Values.LanguageIsHead | parse.go:45-49 | any non-empty dash-free text that heads the tag followed by `-` is its language part, so the cut is at the first `-` |
| Values.Bind | parse.go:54-56 | the bound names are the parameters' names, and a repeated name keeps its last value |
| Values.NewContext | parse.go:44-58 | a fresh context has the language part of the tag and binds every parameter, with the last value of a repeated name winning |
| Messages.Translate | messageformat.go:54-60 | translating panics or hangs exactly when parsing the template does; parsing never reports an error |
| Messages.TranslateParsed | messageformat.go:54-60 | a parsed template renders its nodes in a fresh context built from the tag and the parameters |
| Messages.String | messageformat.go:13-15 | a template's text converts back to the same template |
| Messages.TranslateForms | messageformat.go:17-19 | the method and the function translate alike |
| Messages.TranslatePlainText | messageformat_test.go:17-18 | plain text translates to itself, whatever the parameters |
| Messages.TranslatePlaceholder | parse.go:124-130 | `a{k}b` translates to `a`, the value last bound to `k` (nothing when unbound), then `b` |
| Messages.TranslatePlaceholderExample | messageformat_test.go:21 | `Hello {name}!` with name Bob translates to `Hello Bob!` |
| Messages.TranslateMissingExample | messageformat_test.go:22 | `Hello {name}!` without parameters translates to `Hello !` |
| Messages.TranslateQuoted | lexer.go:120-174 | translating `a'{q'b` gives `a`, `{q` and `b`: the apostrophes are dropped and the braces between them stay text |
| Messages.TranslateQuotedExample | messageformat_test.go:44 | `Use '{foo}' as a variable.` without parameters translates to `Use {foo} as a variable.` |
| LexerTables.TableLexes | lexer.go:109-240 | text, one `{key, kind, offset:n cases}` argument whose case bodies hold plain text and `#`, and text lex to the text, `{`, the key, `,`, blanks, the kind, `,`, the identifiers `offset` and `:n` (the colon stays with the digits), each case's blanks, selector, `{`, body text and `#` tokens and `}`, then `}`, the text and EOF |
| LexerTables.OffsetSpan | lexer.go:204-240 | in action mode, `offset:n` lexes to the identifier `offset` and the identifier `:n`, because the colon is skipped without starting a token |
| LexerTables.CaseSpan | lexer.go:109-240 | one case `selector {body}` lexes, from action mode back to action mode, to its blanks, its selector, `{`, the body's text and `#` tokens and `}` |
| ParserTables.PutTwice | parse.go:504-551 | storing an empty body and then the parsed body under one selector gives the same table as storing the parsed body alone |
| ParserTables.CaseTableGet | parse.go:504-551 | after the cases are stored in order, each selector holds the body of the last case naming it, and a selector no case names keeps what it held |
| ParserTables.HeaderStep | parse.go:385-451 | `{key, kind,` leaves a StartAction and the formatter the kind names, keyed by the key |
| ParserTables.OffsetStep | parse.go:497-502 | `offset` followed by `:n` after a plural-like node stores `Atoi(n)` as its offset |
| ParserTables.OpenCaseStep | parse.go:497-529 | a selector, blanks and `{` after a plural-like or select node add an empty case for the selector and push the selector and a StartMessage |
| ParserTables.CaseStep | parse.go:497-557 | one case stores its body, as text and `#` nodes, under its selector in the node's table, and leaves the node on top of the stack |
| ParserTables.CasesStep | parse.go:497-557 | the cases in order leave the node with the table that storing each body under its selector gives, the last case for a repeated selector winning |
| ParserTables.TableLoop | parse.go:373-574 | the parser loop over such a template's tokens returns the text before, one message holding the argument's node with its key, rule, offset and case table, and the text after |
| ParserTables.TableParses | parse.go:373-574 | lexing and parsing such a template gives the text before, one message holding the argument's node, and the text after |
| TableRenders.BodyRenders | parse.go:85-112 | a case body renders its pieces joined by what `#` shows, and leaves the context unchanged |
| TableRenders.TranslateTable | messageformat.go:54-60 | such a template translates to the text before, what the argument's node renders in a fresh context, and the text after |
| TableRenders.TranslatePluralTable | parse.go:278-335 | a plural or selectordinal template with its key bound translates to the text around the argument and the pieces of the last case named by the first candidate any case names, joined by the value minus the offset wherever `#` shows it |
| TableRenders.TranslateSelectTable | parse.go:343-356 | a select template with its key bound translates to the text around the argument and the pieces of the last case named by the value's text, or else `other` |
| TableExamples.PluralWithOffsetExample | messageformat_test.go:55-58 | the `pluralWithOffset` template (`offset:1`, cases `=0`, `=1`, `one`, `other{# …}`) gives `no alarms where issued` for 0, `one alarm was issued` for 1, `another alarm was issued` for 2, and `2 alarms where issued` for 3 |
| TableExamples.PluralOrdinalExample | messageformat_test.go:60-63 | the `pluralOrdinal` template (`one {#st}`, `two {#nd}`, `few {#rd}`, `other {#th}`) gives `1st`, `2nd`, `33rd` and `14th` |
| TableExamples.SelectExample | messageformat_test.go:28-29 | `{gender, select, male {♂} female {♀}}` gives `♂` for `male` and `♀` for `female` |
| Messages.ParametersFrom | messageformat.go:21-34 | a string map or interface map gives one string parameter per entry, in the iteration order given and without repeats; anything else gives none |
| Messages.ParametersFromBindsMap | messageformat.go:21-34 | a context built from the parameters of a map binds exactly the map's keys to their printed values |
| Translators.NewHierarchical | translator.go:13-18 | a new translator is an English root level with no templates |
| Translators.NilTranslatorFunc | translator.go:45-49 | the nil translator answers with the key |
| Translators.NilAnswersKey | translator.go:30-33 | a nil hierarchical translator and the nil translator both answer with the key |
| Translators.Translate | translator.go:30-43 | no contract of its own; stated by `NilAnswersKey`, `LevelAnswers`, `LevelFallsBack`, `ChainMisses` and `FirstHolderAnswers` |
| Translators.IsRoot | translator.go:26-28 | no contract of its own; stated by `Translators.ChainRoots` and `Translators.LevelFallsBack` |
| Translators.ChainRoots | translator.go:26-43 | a nil translator is a root; along the fallback chain every level but the last has a base, and the last is a root exactly when nothing follows the chain |
| Translators.LevelAnswers | translator.go:34-38 | a level holding the key answers with the rendering in its own tag and never asks its base |
| Translators.LevelFallsBack | translator.go:39-42 | a level without the key passes it to its base, or answers with the key when it is a root |
| Translators.ChainMisses | translator.go:30-43 | when no level of the chain holds the key, the end of the chain answers, and a root answers with the key |
| Translators.FirstHolderAnswers | translator.go:30-43 | the first level of the chain holding the key decides the answer |
| Translators.TranslatorExample | translator_test.go:5-27 | with the test's table, `foo:bar` renders `Hello FOO!` and the missing `fizzle` comes back unchanged |
| Translators.TranslatorBareExample | translator_test.go:5-27 | with the test's table, `zap` renders its bare placeholder as `BAR` |
| Specifications.RangeOf | specification.go:19-40 | a comma part yields a range only with a non-empty tag that does not contain `;q=` |
| Specifications.RangeWithoutQuality | specification.go:25-29 | a part without `;q=` is its trimmed tag with quality 1, or nothing when the tag is empty |
| Specifications.RangeWithQuality | specification.go:30-39 | a part with one `;q=` takes its quality from the trimmed suffix, and is dropped when the suffix does not parse or the tag is empty |
| Specifications.RangeWithTwoQualities | specification.go:24-40 | a part with two or more `;q=` is dropped |
| Specifications.StableSort | specification.go:42 | the sort orders by quality, highest first, and is a permutation |
| Specifications.StableSortIsStable | specification.go:42 | ranges of equal quality keep their input order |
| Specifications.StableSortUnique | specification.go:42 | two sorted lists that agree on the order within every quality are equal, so the sort is the only stable one |
| Specifications.Collect | specification.go:17-41 | every range collected comes from one comma part and has a non-empty tag |
| Specifications.Ranges | specification.go:12-44 | an empty specification gives no ranges; otherwise the result is sorted, has at most one range per comma part, and is a permutation of the parts' ranges |
| Specifications.RangesAreStable | specification.go:12-44 | within each quality the ranges keep the order of their parts |
| Specifications.Tag | specification.go:46-52 | the tag is empty exactly when there are no ranges |
| Specifications.TagIsFirstBest | specification.go:46-52 | the tag is empty exactly when no comma part yields a range; otherwise it is the tag of the first part with the highest quality |

## Left out

- `bundle.go` is not part of this model. It reads files, decodes TOML, caches under a mutex and reads HTTP requests.
- `ExtractSpecification` is not modelled, because it only reads an HTTP header.
- The lexer's goroutine and channel are not modelled, because the tokens are collected in a list. For the same reason `nextToken` and `drain` are left out.
- `errorf` is not modelled, because it is never called. The lexer never sends an Error token, and the model follows that code rather than the doc comment on `errorf`.
- The token kinds `Error` and `Quote` are never sent. `Error` is kept only as the zero token that a closed channel yields.
- `isWhitespace`, `isNewLine` and `token.String` are not modelled, because nothing the core computes uses them.
- Value formatting is a `Formatters` parameter, because it is Go's `fmt` and `time` and not this package. That covers `fmt.Sprintf` with a style (`%.0f` rounding, say) and `time.Format`.
- The panicking type assertions `.(time.Time)` and `.(string)` of the date node are inside the same `Formatters` parameter, so their panics are not modelled.
- Printing (`%v`) is `Values.Show` over a small value datatype of strings, int64, bools and an opaque "other" value. Floats and other Go values print as that opaque value.
- `unicode.IsLetter` is limited to the Latin blocks up to U+024F, and `unicode.IsDigit` to ASCII digits. Identifiers with other letters or digits are therefore not modelled.
- `strconv.ParseFloat` is a parameter, and qualities are exact reals. NaN and float rounding are not modelled.
- Go's map iteration order is a parameter wherever it shows. In `ParametersFrom` it is the `order` argument. In `#` with two or more visible values it does not matter, because the result is `#` either way.
- `Translate` never reports an error, because `parse` never returns one. Its error branch, and the translator's fallback on a template error, are therefore dead. A panic or endless loop while translating belongs to the caller.
- Translators.Translate: carries no contract of its own. Its behaviour is stated by `NilAnswersKey`, `LevelAnswers`, `LevelFallsBack`, `ChainMisses` and `FirstHolderAnswers`.
- Parser.Loop: its own contract states only that a returned message needs an EOF. What it returns for particular inputs is stated by the `ParserProperties` lemmas, and the model does not claim more than those.
- Eval.RenderPlural: its own contract states only how the context may change. The text it renders is stated by `Eval.PluralRenders`, and `Eval.PluralMisses` states when it renders nothing.
- Eval.RenderSelect: its own contract states only how the context may change. The text it renders is stated by `Eval.SelectRenders`, and `Eval.SelectMisses` states when it renders nothing.
- Eval.Render: its own contract states only how the context may change. The rendered text for particular inputs is stated by the lemmas after it and by `Messages.TranslatePlaceholder`.
- Go's per-byte cursor is a per-rune cursor. Every move the code makes is by whole runes, so the tokens are the same.
