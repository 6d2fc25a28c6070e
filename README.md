# scrapeycat core, modelled in Dafny

scrapeycat runs small scraping scripts. A script is text in a line-oriented
language. It is preprocessed (whole-line `#` comments removed), lexed into
tokens with positions, parsed into instructions, and then interpreted.
The interpreter drives a scraper: a list of result strings plus the HTTP
headers it sends. Instructions fetch pages, cut the results with regular
expressions, reshape the results, store and load variables, emit effects such
as `print` and `notify`, and run other scripts with arguments. A daemon starts
scripts on cron schedules. A schedule is a five-field cron spec, and each field
is a bounded byte.

This project models that core, module by module:

- `Lexer`, `LexerProperties` (src/scrapelang/lexer.rs). Text positions,
  the matcher table and the longest-match rule, string literals with escapes,
  and the errors for unterminated strings and unknown characters.
- `Parser`, `ParserProperties` (src/scrapelang/parser.rs). Unescaping,
  keyword-argument maps with HashMap insert semantics, call argument lists,
  every statement form, and whitespace deduplication.
- `Interpreter`, `InterpreterProperties`, `Substitution`
  (src/scrapelang/program.rs). Variable seeding from positional and keyword
  arguments, argument resolution, `{name}` substitution, the instruction loop,
  and recursive `run` of other scripts.
- `Preprocessor` (src/scrapelang/preprocessor.rs). Comment-line stripping.
- `Scrapers`, `ScraperProperties` (src/scraper.rs). Every scraper operation
  as a pure function on a `Scraper` value.
- `Effects` (src/effect.rs). `report_unknown_kwargs` and the keyword checks
  of `print` and `notify`.
- `CommandLine` (src/main.rs). `split_posargs_and_kwargs`.
- `BoundedBytes` (src/util/boundedu8.rs). Bounded and non-zero bytes,
  inclusive ranges, and their parsing from text.
- `Cron`, `CronSyntax`, `CronItems`, `CronRefusals`, `CronPatterns`
  (src/daemon/cron.rs). The cron-spec parser as a parser combinator with
  backtrack and cut, its round trip with the spec's own syntax, the refused
  inputs, and what the regular expression of a spec stands for.
- `Regex` is an abstract regular-expression engine (compiles, captures,
  group detection) passed to the scraper as a parameter.
- `Wrappers`, `Errors`, `Strings` are shared helpers: Option and Result, the
  error type, and decimal digits.

Code that updates variables in a loop is modelled as a `method` with a
`while` loop. Each such method is proved equal to a pure specification
function, and the properties are proved about that function. Examples are
`Lexer.Lex`, `Parser.Parse`, `Parser.ParseCallArgs`, `Interpreter.Run`,
`Substitution.SubstituteVariables`, `Cron.CronspecItem` and
`CommandLine.SplitPosargsAndKwargs`. Code made of expressions is modelled as
functions.

`substitute_variables` (src/scrapelang/program.rs:173-198) finds the
placeholders in the original text. It then applies their ranges to the string
it is already rewriting. When an earlier replacement has a different length
from its placeholder, the later ranges no longer point at the placeholders.
The model keeps this behaviour as written (`Substitution.SubstitutedAsWritten`,
which the interpreter uses). It also gives a position-correct reference
(`Substitution.SubstitutedCorrectly`). The two are proved equal when every
replacement keeps the placeholder's length, or when there is one placeholder.
Two concrete inputs show how they differ. `replace_range` panics on an
out-of-bounds range; the model returns the `ReplaceRangePanic` error instead.
The source's ranges and lengths are UTF-8 byte counts, and `replace_range` also
panics on a range end that is not a character boundary. The model counts
characters, so it follows the source exactly when the text and the variable
values are ASCII (see "## Left out").

## Model

| member | source | states |
|---|---|---|
| Lexer.TextPositionAfter | src/scrapelang/lexer.rs:203-219 | the loop computes the position after the text: a line feed moves to the next row at column 1, any other character moves one column right |
| Lexer.PositionAfterLineBreak | src/scrapelang/lexer.rs:412-428 | after a newline token (`\n` or `\r\n`) the position is column 1 of the next row |
| Lexer.PositionAfterOneLine | src/scrapelang/lexer.rs:260-298 | text without a line feed keeps the row and advances the column by its length |
| LexerProperties.PositionAfterConcat | src/scrapelang/lexer.rs:203-219 | positions compose: the position after `a + b` is the position after `b`, starting from the position after `a` |
| Lexer.Span | src/scrapelang/lexer.rs:250-258 | the length of the longest prefix whose characters all satisfy the predicate: every character inside satisfies it, the next one does not |
| Lexer.ScanFrom | src/scrapelang/lexer.rs:316-337 | a closing quote that is found lies after the start and is a `"` |
| Lexer.TryMatch | src/scrapelang/lexer.rs:260-429 | a match is a prefix of the remaining text, starting at the current position; only the string matcher can fail, and its failure is an unterminated-string parse error |
| Lexer.TryMatchString | src/scrapelang/lexer.rs:311-355 | the scanning loop of the string matcher gives exactly the string matcher's outcome |
| Lexer.TryMatchAt | src/scrapelang/lexer.rs:369-429 | running any matcher gives exactly its specified outcome |
| Lexer.Outcomes | src/scrapelang/lexer.rs:436-439 | one outcome per matcher |
| Lexer.FirstFailure | src/scrapelang/lexer.rs:436-439 | there is no failure exactly when no matcher failed; otherwise it is the failure of the earliest failing matcher |
| Lexer.Chosen | src/scrapelang/lexer.rs:448-453 | nothing is chosen exactly when no matcher matched; otherwise the choice is the earliest of the longest matches |
| Lexer.EarliestLongestUnique | src/scrapelang/lexer.rs:448-453 | the earliest longest match is unique |
| Lexer.ChosenExtend | src/scrapelang/lexer.rs:448-453 | one more matcher replaces the current choice exactly when it matched strictly longer (earlier matchers win ties) |
| Lexer.Select | src/scrapelang/lexer.rs:436-453 | a selected match lies at the current position of the text |
| Lexer.Step | src/scrapelang/lexer.rs:436-453 | a lexing step over the matcher table yields a match at the current position |
| Lexer.SelectMatch | src/scrapelang/lexer.rs:436-453 | the loop over the matchers (first failure wins, otherwise earliest longest match, otherwise a syntax error) equals the selection |
| Lexer.LexFromStep | src/scrapelang/lexer.rs:435-459 | lexing the rest is one selected match followed by lexing what follows it, from the position after it |
| Lexer.Lex | src/scrapelang/lexer.rs:221-462 | the lexing loop returns exactly the tokens (or the error) of the lexing specification |
| LexerProperties.LexChain | src/scrapelang/lexer.rs:435-461 | the matched pieces concatenate back to the input and each piece starts where the previous ended |
| LexerProperties.LexedTokensChain | src/scrapelang/lexer.rs:431-461 | the first token starts at row 1 column 1, each token starts where the previous one ends, and the last ends at the position after the whole text |
| LexerProperties.MatcherAt | src/scrapelang/lexer.rs:369-429 | the matcher table: 16 keywords, then comma, equals, identifier, left parenthesis, number, right parenthesis, string, blanks and newline, in that order |
| LexerProperties.KeywordsDistinct | src/scrapelang/lexer.rs:233-248 | no two keywords are the same word |
| LexerProperties.TryKeyword | src/scrapelang/lexer.rs:260-278 | a keyword matcher matches exactly when the text starts with its word |
| LexerProperties.KeywordWins | src/scrapelang/lexer.rs:368-386 | a keyword not followed by an identifier character lexes as that keyword, not as an identifier |
| LexerProperties.IdentifierWins | src/scrapelang/lexer.rs:489-496 | a word that starts like an identifier and is not a keyword lexes as one identifier spanning the whole word, even when a keyword is a prefix of it |
| LexerProperties.SilentUnlessStarts | src/scrapelang/lexer.rs:260-429 | a matcher does nothing on text whose first character cannot start its token |
| LexerProperties.SoleCandidate | src/scrapelang/lexer.rs:436-453 | when only one matcher can start on the first character, its match is the step's result |
| LexerProperties.BlanksLex | src/scrapelang/lexer.rs:395-411 | a run of blanks lexes as one whitespace token covering the whole run |
| LexerProperties.NewlineLex | src/scrapelang/lexer.rs:412-428 | `\n` and `\r\n` lex as whitespace ending at column 1 of the next row |
| LexerProperties.SyntaxErrorIffNoTokenStarts | src/scrapelang/lexer.rs:441-446 | the step reports a syntax error at the current position exactly when no token can start on the next character |
| LexerProperties.ScanEscaped | src/scrapelang/lexer.rs:322-337 | the scan stops exactly at the quote that closes an escaped body |
| LexerProperties.StringLiteralLexes | src/scrapelang/lexer.rs:357-366 | a quoted escaped string lexes as one string token holding the escaped body, ending after the closing quote |
| LexerProperties.UnterminatedString | src/scrapelang/lexer.rs:338-345 | a quote without a closing quote is an unterminated-string error at the column after the remaining text |
| Parser.Unescape | src/scrapelang/parser.rs:8-25 | the unescaping loop equals the unescaping function |
| ParserProperties.UnescapeEscaped | src/scrapelang/parser.rs:8-25 | unescaping undoes escaping of backslashes and quotes, for every string |
| ParserProperties.StringLiteralReadsBack | src/scrapelang/lexer.rs:357-366 | lexing a string literal and unescaping its token gives back the original string |
| ParserProperties.UnescapePlain | src/scrapelang/parser.rs:8-25 | text without backslashes is unchanged |
| ParserProperties.UnescapeBackslashes | src/scrapelang/parser.rs:13-18 | a backslash keeps the next character literally and is itself dropped; a trailing backslash is dropped unless it is itself escaped, in which case it is kept |
| ParserProperties.TrailingBackslash | src/scrapelang/parser.rs:13-18 | a backslash appended to the text adds a backslash to the output exactly when an escape is pending at the end of the text |
| ParserProperties.UnescapeExtractTest | src/scrapelang/parser.rs:1115-1129 | the doubled backslash of the extract test reads back as one backslash |
| Parser.Insert | src/scrapelang/parser.rs:255-273 | inserting a keyword argument behaves as a HashMap insert: the map gets the new value, an existing key is overwritten in place, a new key is added at the end, and keys stay unique |
| ParserProperties.InsertAllMap | src/scrapelang/parser.rs:255-273 | inserting the keyword arguments one by one gives the map where the last value of each key wins |
| Parser.Head | src/scrapelang/parser.rs:84-100 | succeeds exactly when the first token is the statement's keyword |
| Parser.Separator | src/scrapelang/parser.rs:116-133 | succeeds exactly when the next token is whitespace |
| Parser.StatementTerminator | src/scrapelang/parser.rs:135-145 | succeeds exactly at the end of input or on whitespace |
| Parser.StringToken | src/scrapelang/parser.rs:147-164 | succeeds exactly on a string token and yields its text |
| Parser.NumberToken | src/scrapelang/parser.rs:166-185 | succeeds exactly on a number token whose text parses as a usize, and yields that number |
| Parser.IdentifierToken | src/scrapelang/parser.rs:187-206 | succeeds exactly on an identifier token and yields its name |
| Parser.ParseUsize | src/scrapelang/parser.rs:173 | a parsed usize never exceeds the 64-bit maximum |
| ParserProperties.ParseUsizeRoundTrip | src/scrapelang/parser.rs:173 | the decimal text of every usize, with or without a leading `+`, parses back to it |
| ParserProperties.ParseUsizeOverflow | src/scrapelang/parser.rs:173 | a number above the usize maximum is a parse-int error |
| Parser.NonWhitespaceFrom | src/scrapelang/parser.rs:219-224 | the increasing indices of exactly the non-whitespace tokens |
| Parser.Pick | src/scrapelang/parser.rs:219-224 | the tokens at those indices |
| Parser.ArgsLoop | src/scrapelang/parser.rs:236-328 | a successful argument loop stops at a right parenthesis, counts the tokens up to it, and only adds to the arguments already read |
| Parser.ArgsLoopEnds | src/scrapelang/parser.rs:330-338 | a read argument list ends on a right parenthesis inside the tokens |
| Parser.CallArgsOf | src/scrapelang/parser.rs:208-342 | the argument list ends on a right parenthesis, and without a leading left parenthesis there are no arguments and no tokens consumed |
| Parser.ParseCallArgs | src/scrapelang/parser.rs:208-342 | the argument-parsing loop equals the argument-list specification |
| ParserProperties.ArgsLoopReads | src/scrapelang/parser.rs:236-328 | on a comma-separated list of values and `key = value` pairs, the loop reads the positional values in order and inserts the pairs |
| ParserProperties.CallArgsReads | src/scrapelang/parser.rs:208-342 | a parenthesised list of items (whitespace anywhere) yields its positional values in order, its keyword map with the last value per key winning, unique keys, and the token count up to the closing parenthesis |
| ParserProperties.CallArgsWithoutWhitespace | src/scrapelang/parser.rs:208-342 | the same for a list with no whitespace, counting tokens directly |
| ParserProperties.NoArgumentList | src/scrapelang/parser.rs:226-230 | without a left parenthesis a call has no arguments |
| ParserProperties.MissingComma | src/scrapelang/parser.rs:313-320 | a value where a comma is due is an unexpected-token error at that token |
| ParserProperties.LeadingComma | src/scrapelang/parser.rs:302-320 | a comma right after the left parenthesis is an unexpected-token error |
| ParserProperties.EffectArgumentsTest | src/scrapelang/parser.rs:932-1112 | the argument list `($x, foo = "bar", $y)` of the effect test reads as two identifiers and one keyword argument over nine tokens |
| ParserProperties.EffectWithArgumentsTest | src/scrapelang/parser.rs:932-1112 | `effect name($x, foo = "bar", $y)` parses to that effect instruction |
| Parser.ParseStringStatement | src/scrapelang/parser.rs:344-362 | a one-string statement parses exactly when it is keyword, whitespace, string and a terminator, and holds the unescaped string |
| Parser.ParseBareStatement | src/scrapelang/parser.rs:364-375 | a bare keyword statement parses exactly when a terminator follows the keyword |
| Parser.ParseNameStatement | src/scrapelang/parser.rs:547-566 | a named statement parses exactly when it is keyword, whitespace, identifier and a terminator |
| Parser.ParseDrop | src/scrapelang/parser.rs:433-446 | `drop` parses exactly with a number that fits a usize, and holds it |
| Parser.ParseHeader | src/scrapelang/parser.rs:524-546 | `header` parses exactly with two whitespace-separated strings and a terminator, and holds both unescaped |
| Parser.CallName | src/scrapelang/parser.rs:448-469 | a call head is keyword, whitespace and an identifier, whose name it yields |
| Parser.ParseCall | src/scrapelang/parser.rs:448-469 | a parsed call consumes at least its three head tokens |
| Parser.ParseCallReads | src/scrapelang/parser.rs:448-469 | a call parses exactly when the head, an argument list and a terminator follow each other, and holds the name and the arguments |
| ParserProperties.EffectStatement | src/scrapelang/parser.rs:448-469 | an `effect` statement holds its name, positional arguments and keyword arguments |
| Parser.ParseStatement | src/scrapelang/parser.rs:670-760 | a statement starts with a keyword and consumes at least one token; any other token is an unexpected-token error |
| Parser.DedupWhitespace | src/scrapelang/parser.rs:655-656 | deduplication never lengthens the tokens and keeps the first token |
| ParserProperties.DedupKeepsRunHeads | src/scrapelang/parser.rs:655-656 | deduplication keeps the first token and every later token except a whitespace token directly after another, so each whitespace run stays as exactly its first token |
| ParserProperties.DedupNoAdjacent | src/scrapelang/parser.rs:655-656 | after deduplication no two whitespace tokens are adjacent |
| ParserProperties.DedupKeepsWords | src/scrapelang/parser.rs:655-656 | deduplication keeps every non-whitespace token, in order |
| ParserProperties.DedupFixpoint | src/scrapelang/parser.rs:655-656 | tokens without adjacent whitespace are unchanged |
| ParserProperties.DedupIdempotent | src/scrapelang/parser.rs:655-656 | deduplicating twice is deduplicating once |
| Parser.Parse | src/scrapelang/parser.rs:651-764 | the parsing loop equals the program specification |
| ParserProperties.ParseFromNonKeyword | src/scrapelang/parser.rs:751-757 | the first non-whitespace token that is not a keyword is a syntax error at its position |
| ParserProperties.ParseFromWhitespace | src/scrapelang/parser.rs:661-668 | whitespace alone parses to the empty program |
| ParserProperties.ParseFromCount | src/scrapelang/parser.rs:661-763 | a program has at most one instruction per keyword token |
| Interpreter.ResolveArgs | src/scrapelang/program.rs:62-71 | arguments resolve exactly when each one does, one value per argument in order; otherwise the error of the first failing argument in written order |
| Interpreter.ResolveKwargs | src/scrapelang/program.rs:73-87 | keyword arguments resolve to a map over the same keys, each value resolved; otherwise the error of the first failing argument in written order |
| Interpreter.Run | src/scrapelang/program.rs:18-171 | running a script gives exactly the specified effects and results |
| Interpreter.SeedLoop | src/scrapelang/program.rs:31-39 | the seeding loops produce the specified variables |
| Interpreter.SeedPositional | src/scrapelang/program.rs:33-35 | positional arguments become variables `1`, `2`, ... |
| Interpreter.SeedKeywords | src/scrapelang/program.rs:37-39 | keyword arguments are laid over the positional variables |
| Interpreter.Execute | src/scrapelang/program.rs:43-167 | executing one instruction gives exactly its specified effects and next state |
| Interpreter.ExecuteEffect | src/scrapelang/program.rs:56-94 | an effect resolves its arguments and emits one invocation |
| Interpreter.ExecuteRun | src/scrapelang/program.rs:119-166 | a `run` resolves its arguments and runs the script |
| Interpreter.ExecuteResolved | src/scrapelang/program.rs:152-165 | a `run` with resolved arguments gives the specified outcome |
| Interpreter.RunAndAppend | src/scrapelang/program.rs:152-165 | the sub-script's results are appended to the current results |
| Interpreter.AppendResults | src/scrapelang/program.rs:152-165 | appending a sub-run's outcome to the state as specified |
| Interpreter.ApplyInstruction | src/scrapelang/program.rs:44-118 | every scraper and variable instruction updates the state as specified |
| InterpreterProperties.PositionalVarsLookup | src/scrapelang/program.rs:33-35 | variable `i` holds the `i`-th positional argument |
| InterpreterProperties.PositionalVarsKeys | src/scrapelang/program.rs:33-35 | the positional variables are exactly `1` to the argument count |
| InterpreterProperties.SeedLookup | src/scrapelang/program.rs:31-39 | a keyword argument's variable holds its value; a positional variable not overridden holds its argument; nothing else is defined |
| InterpreterProperties.KeywordOverridesPositional | src/scrapelang/program.rs:31-39 | a keyword argument named `2` replaces the second positional argument |
| InterpreterProperties.PlainArgumentPassThrough | src/scrapelang/program.rs:65 | a string without `{` resolves to itself |
| InterpreterProperties.IdentifierArgument | src/scrapelang/program.rs:66-69 | an identifier resolves to its variable's values joined, or to a variable-not-found error |
| InterpreterProperties.StoreThenLoad | src/scrapelang/program.rs:101-118 | `store v` then `load v` saves the results and appends them to themselves, with no effects |
| InterpreterProperties.LoadMissing | src/scrapelang/program.rs:101-112 | loading an undefined variable is a variable-not-found error |
| InterpreterProperties.EffectSendsOne | src/scrapelang/program.rs:56-94 | an effect leaves the state unchanged and emits exactly one invocation with the resolved arguments, or fails with none |
| InterpreterProperties.OneInvocationPerEffect | src/scrapelang/program.rs:56-94 | a successful program without `run` emits one invocation per effect statement |
| InterpreterProperties.RunAppendsResults | src/scrapelang/program.rs:119-166 | `run` passes on the sub-script's effects and appends its results, or fails with its error |
| InterpreterProperties.RunWithoutFuel | src/scrapelang/program.rs:152-163 | with no recursion budget left, `run` stops with a recursion-limit error |
| InterpreterProperties.ExecFromAppend | src/scrapelang/program.rs:43-168 | executing `p + q` is executing `p` and then `q` from the resulting state, effects concatenated |
| InterpreterProperties.RunScriptFuel | src/scrapelang/program.rs:152-163 | a run that did not hit the recursion limit is unchanged by one more unit of budget |
| InterpreterProperties.RunScriptMoreFuel | src/scrapelang/program.rs:152-163 | a run that did not hit the recursion limit is unchanged by any larger budget |
| Substitution.CloseFrom | src/scrapelang/program.rs:178-180 | the closing brace found is the first `}`, with no line break before it |
| Substitution.MatchAt | src/scrapelang/program.rs:178-180 | a placeholder match starts with `{`, ends with `}` and has a non-empty name |
| Substitution.PlaceholdersFrom | src/scrapelang/program.rs:178-180 | the placeholders found are well formed, ordered and non-overlapping |
| Substitution.Placeholders | src/scrapelang/program.rs:178-180 | the same for the whole text |
| Substitution.PlaceholderShape | src/scrapelang/program.rs:178-180 | every placeholder name is non-empty, has no line break and no `}` after its first character |
| Substitution.Lookup | src/scrapelang/program.rs:186-192 | a variable's value is its values joined; a missing variable is a variable-not-found error |
| Substitution.ReplaceRange | src/scrapelang/program.rs:184-194 | replacing a range of characters inside the string splices in the value; a range past the end is the panic error |
| Substitution.SubstituteVariables | src/scrapelang/program.rs:173-198 | the substitution loop equals substitution as written, with ranges counted in characters |
| Substitution.NoPlaceholderUnchanged | src/scrapelang/program.rs:173-198 | text without `{` is unchanged |
| Substitution.SameLengthAgrees | src/scrapelang/program.rs:180-195 | when every replacement has as many characters as its placeholder, substitution as written is position-correct |
| Substitution.SinglePlaceholderAgrees | src/scrapelang/program.rs:180-195 | with one placeholder, substitution as written is position-correct |
| Substitution.MissingVariable | src/scrapelang/program.rs:186-188 | a placeholder naming no variable is a variable-not-found error |
| Substitution.LongerReplacementPanics | src/scrapelang/program.rs:184-194 | `{x1}{x2}` with x1 = "1" and x2 = "2345" panics as written, where the position-correct result is "12345" |
| Substitution.ShorterReplacementMisplaces | src/scrapelang/program.rs:184-194 | `{a}{b}xyz` with a = "" and b = "B" gives "{b}B" as written |
| Substitution.ShorterReplacementCorrectly | src/scrapelang/program.rs:184-194 | the position-correct result for the same input is "Bxyz" |
| Preprocessor.StripComments | src/scrapelang/preprocessor.rs:3-8 | stripping never lengthens the text |
| Preprocessor.CommentEnd | src/scrapelang/preprocessor.rs:4 | a comment line matched at a position ends after that position and inside the text |
| Preprocessor.NoCommentLineUnchanged | src/scrapelang/preprocessor.rs:3-8 | text with no comment line is unchanged |
| Preprocessor.NoHashUnchanged | src/scrapelang/preprocessor.rs:3-8 | text without `#` is unchanged |
| Preprocessor.CommentLineRemoved | src/scrapelang/preprocessor.rs:4-7 | whitespace, `#` and the rest of the line are removed together with the line feed |
| Preprocessor.FinalCommentLineRemoved | src/scrapelang/preprocessor.rs:4-7 | a final comment line without a line feed is removed |
| Preprocessor.CodeLineKept | src/scrapelang/preprocessor.rs:4-7 | a line whose first non-blank character is not `#` is kept, line feed included |
| Preprocessor.CodeThenComment | src/scrapelang/preprocessor.rs:4-7 | a code line followed by a comment line keeps only the code line |
| Preprocessor.CommentThenCode | src/scrapelang/preprocessor.rs:4-7 | a comment line followed by a code line keeps only the code line |
| Preprocessor.StripFromShift | src/scrapelang/preprocessor.rs:4-7 | after a line feed, stripping the rest does not depend on what came before |
| Preprocessor.StripCommentsEmptyAndPlain | src/scrapelang/preprocessor.rs:16-17 | empty text and plain text are unchanged |
| Preprocessor.StripCommentsWholeText | src/scrapelang/preprocessor.rs:18-19 | a text that is one comment line, indented or not, becomes empty |
| Preprocessor.StripCommentsMiddleLine | src/scrapelang/preprocessor.rs:20 | a comment line between two code lines is removed |
| Preprocessor.StripCommentsFirstAndLastLine | src/scrapelang/preprocessor.rs:21 | first and last comment lines are removed and the middle line kept |
| Scrapers.DeleteMatches | src/scraper.rs:171 | deleting the matches shortens the text by exactly the matched length |
| Scrapers.ExtractMatches | src/scraper.rs:149-157 | without a capture group, one extracted string per match, of total length the matched length |
| Scrapers.ExtractAll | src/scraper.rs:146-159 | no results give no extracted results |
| Scrapers.Filter | src/scraper.rs:180-181 | the kept results are exactly those whose match status is the one asked for, a sub-multiset of the input |
| Scrapers.Scraper.WithResults | src/scraper.rs:127-129 | replaces the results and keeps the headers |
| Scrapers.Scraper.Get | src/scraper.rs:131-140 | the driver is called with the scraper's headers; on success the page is appended to the results, on failure its error is returned |
| Scrapers.Scraper.Extract | src/scraper.rs:142-162 | a pattern that does not compile is a regex error; otherwise the results are replaced by the extracted matches |
| Scrapers.Scraper.Delete | src/scraper.rs:164-175 | a pattern that does not compile is a regex error; otherwise each result has its matches deleted |
| Scrapers.Scraper.Retain | src/scraper.rs:177-187 | a pattern that does not compile is a regex error; otherwise only matching results are kept |
| Scrapers.Scraper.Discard | src/scraper.rs:189-199 | a pattern that does not compile is a regex error; otherwise only non-matching results are kept |
| Scrapers.Scraper.First | src/scraper.rs:201-210 | at most the first result remains |
| Scrapers.Scraper.Last | src/scraper.rs:212-221 | at most the last result remains |
| Scrapers.Scraper.Take | src/scraper.rs:223-232 | the first `n` results (all when fewer) remain |
| Scrapers.Scraper.Drop | src/scraper.rs:234-243 | the results after the first `n` remain |
| Scrapers.Scraper.Prepend | src/scraper.rs:245-254 | every result gets the prefix |
| Scrapers.Scraper.Append | src/scraper.rs:256-265 | every result gets the suffix |
| Scrapers.Scraper.Join | src/scraper.rs:267-281 | non-empty results become the single string of all of them with the separator between neighbours, headers unchanged; no results stay none |
| Strings.JoinWithAppend | src/scraper.rs:272-277 | joining one more string after a non-empty list appends the separator and that string to the joined text |
| ScraperProperties.JoinTest | src/scraper.rs:472-480 | `a`, `b`, `c` joined with `~~~` give the single result `a~~~b~~~c` |
| Scrapers.Scraper.Clear | src/scraper.rs:283-288 | the results become empty and the headers stay |
| Scrapers.Scraper.SetHeader | src/scraper.rs:290-295 | the header is set and the results stay |
| Scrapers.Scraper.ClearHeaders | src/scraper.rs:297-302 | the headers become empty and the results stay |
| Scrapers.NewScraper | src/scraper.rs:115-121 | a new scraper has no results and no headers |
| ScraperProperties.TakeDropSplit | src/scraper.rs:223-243 | `take n` and `drop n` split the results |
| ScraperProperties.DropZero | src/scraper.rs:234-243 | `drop 0` changes nothing |
| ScraperProperties.DropDrop | src/scraper.rs:234-243 | `drop m` then `drop n` is `drop m + n` |
| ScraperProperties.FirstIsTakeOne | src/scraper.rs:201-232 | `first` is `take 1` |
| ScraperProperties.LastIsDropAllButOne | src/scraper.rs:212-243 | `last` is dropping all but one |
| ScraperProperties.AppendAppend | src/scraper.rs:256-265 | appending `a` then `b` is appending `a + b` |
| ScraperProperties.PrependAppendCommute | src/scraper.rs:245-265 | prepending and appending commute |
| ScraperProperties.JoinWithoutSeparator | src/scraper.rs:267-281 | joining with the empty separator concatenates the results |
| ScraperProperties.FilterPartition | src/scraper.rs:177-199 | the matching and non-matching results together are exactly the input, as a multiset and in count |
| ScraperProperties.FilterKeepsOrder | src/scraper.rs:177-199 | the results `retain` and `discard` keep are a subsequence of the input: they stay in their input order |
| ScraperProperties.RetainDiscardPartition | src/scraper.rs:177-199 | `retain` and `discard` with one pattern split the results into matching and non-matching, each part in input order |
| ScraperProperties.ExtractAllAppend | src/scraper.rs:142-162 | extraction distributes over concatenated results |
| ScraperProperties.DeleteExtractComplement | src/scraper.rs:142-175 | without a capture group, what `delete` keeps and what `extract` takes add up to the text's length |
| ScraperProperties.NoMatchUntouched | src/scraper.rs:142-175 | a result without a match is left alone by `delete` and yields nothing to `extract` |
| ScraperProperties.GetSendsHeaders | src/scraper.rs:131-140 | `get` after `header` sends the new header; after `clear-headers` it sends none |
| Effects.ReportUnknownKwargs | src/effect.rs:7-25 | no report exactly when every keyword is known; a report names the context, the known keywords, and exactly the unknown keywords, never none |
| Effects.PrintedArgsJoin | src/effect.rs:56-60 | `print` writes its arguments joined by single spaces |
| Effects.PrintAcceptsOnlyEnd | src/effect.rs:62-67 | `print` accepts exactly the keyword `end` and reports every other keyword |
| Effects.PrintTests | src/effect.rs:153-173 | `print` is quiet when silenced, ends with a line feed by default, and uses `end` when given |
| Effects.NotificationOf | src/effect.rs:70-93 | the body is `body` when given and the arguments joined by spaces otherwise; appname, summary, icon and sound are set exactly when `appname`, `title`, `icon` and `sound` are given, each to that keyword's value |
| Effects.NotifyResult | src/effect.rs:95-119 | `notify` succeeds exactly when sending succeeded and every keyword is known |
| Effects.NotifyReportsBoth | src/effect.rs:104-119 | a failed send and unknown keywords are reported together; either alone is reported alone |
| Effects.ReportUnknownKwargsTests | src/effect.rs:138-151 | known keywords pass and an unknown `d` is reported |
| Effects.NotifyTest | src/effect.rs:175-189 | the five notify keywords are accepted and fill the notification |
| CommandLine.FirstEquals | src/main.rs:48 | the index of the first `=` |
| CommandLine.Positionals | src/main.rs:40-56 | no positional argument looks like `key=value` |
| CommandLine.SplitPosargsAndKwargs | src/main.rs:40-56 | the loop yields the positional arguments and the keyword map of the specification |
| CommandLine.KeyValueSplit | src/main.rs:47-49 | a keyword argument is its key, `=` and its value; the key has no `=` and starts like an identifier |
| CommandLine.KeyValueJoin | src/main.rs:47-49 | a key starting like an identifier, `=` and any value read back as that key and value |
| CommandLine.EachArgumentOnce | src/main.rs:46-53 | every argument is either positional or a keyword argument, never both |
| CommandLine.PositionalsAppend | src/main.rs:46-53 | positional arguments keep their order across concatenation |
| CommandLine.SplitSnoc | src/main.rs:46-53 | one more argument extends the positionals or sets its key in the map |
| CommandLine.KeywordsLast | src/main.rs:49 | a key is in the map exactly when an argument has it, and its value is from the last such argument |
| CommandLine.SplitShortTests | src/main.rs:122-133 | the short cases of the splitting test |
| CommandLine.SplitFourTest | src/main.rs:135-138 | the four-argument case of the splitting test |
| CommandLine.SplitLongTests | src/main.rs:140-151 | `=gee` and `1=2` stay positional |
| BoundedBytes.BoundedTryFrom | src/util/boundedu8.rs:19-27 | a reversed range is an invalid-range error; otherwise a value is accepted exactly when it is within the bounds, and kept |
| BoundedBytes.NonZeroTryFrom | src/util/boundedu8.rs:52-58 | a value is accepted exactly when it is between 1 and the bound, and kept |
| BoundedBytes.RangeTryFrom | src/util/boundedu8.rs:83-91 | a range is accepted exactly when lo ≤ start ≤ end ≤ hi; ends out of bounds come first as out-of-range, then a reversed range as invalid |
| BoundedBytes.ParseU8 | src/util/boundedu8.rs:34 | a byte parses exactly from digits (after an optional `+`) whose value is below 256 |
| BoundedBytes.ParseU8Decimal | src/util/boundedu8.rs:34 | the decimal text of every byte, with or without `+`, parses back to it |
| BoundedBytes.ParseU8Rejects | src/util/boundedu8.rs:34 | empty text, a lone `+`, a negative number and 256 are rejected |
| BoundedBytes.FromStrOfDecimal | src/util/boundedu8.rs:30-35 | parsing a bounded or non-zero byte from decimal text is the conversion from that number |
| BoundedBytes.RangeOfBoundedEnds | src/util/boundedu8.rs:80-91 | a range is valid exactly when both ends are valid bounded bytes in order, and every value in it is one |
| BoundedBytes.BoundedTests | src/util/boundedu8.rs:100-126 | the cases of the bounded-byte test |
| BoundedBytes.NonZeroTests | src/util/boundedu8.rs:129-150 | the cases of the non-zero test |
| BoundedBytes.RangeTests | src/util/boundedu8.rs:153-172 | the cases of the range test |
| Cron.ParseDigitsU8 | src/daemon/cron.rs:124-125 | reading digits as a byte consumes input and never cuts |
| Cron.ParseNumber | src/daemon/cron.rs:120-130 | a number read is within the field's bounds |
| Cron.ParseNonzeroNumber | src/daemon/cron.rs:132-142 | a non-zero number read is between 1 and the bounds |
| Cron.ParseStep | src/daemon/cron.rs:144-150 | a step read is non-zero and within the bounds |
| Cron.ParseAny | src/daemon/cron.rs:152-154 | `*` reads as the any item |
| Cron.ParseAnyStepped | src/daemon/cron.rs:156-171 | a stepped star reads as a valid stepped any item |
| Cron.ParseSingle | src/daemon/cron.rs:173-179 | a single value reads as a valid single item |
| Cron.ParseSingleStepped | src/daemon/cron.rs:181-202 | a stepped value reads as a valid stepped single item |
| Cron.ParseRange | src/daemon/cron.rs:204-232 | a range reads as a valid range item |
| Cron.ParseRangeStepped | src/daemon/cron.rs:234-251 | a stepped range reads as a valid stepped range item |
| Cron.ParseItem | src/daemon/cron.rs:253-265 | any item read is valid for the field and consumes input |
| Cron.MoreItems | src/daemon/cron.rs:276-281 | the items after commas are valid and extend those already read |
| Cron.MoreItemsNext | src/daemon/cron.rs:276-281 | after a comma the next item is read and appended; its backtrack or cut ends the list with the same error |
| Cron.ItemList | src/daemon/cron.rs:267-285 | a field is a non-empty list of valid items |
| Cron.CronspecItem | src/daemon/cron.rs:267-285 | the item loop equals the field specification |
| Cron.SpacedItemList | src/daemon/cron.rs:290-298 | after spaces a field is a non-empty list of valid items |
| Cron.ParseCronspec | src/daemon/cron.rs:287-310 | a parsed spec has five fields, each valid for its bounds |
| Cron.FromStr | src/daemon/cron.rs:95-105 | a parsed spec is well formed, and every failure is the invalid-cron-spec error |
| CronItems.DigitsRead | src/daemon/cron.rs:124-125 | digits read as their value when it fits a byte and backtrack otherwise |
| CronItems.NumberRead | src/daemon/cron.rs:120-130 | a number reads exactly when it is within the bounds and backtracks otherwise |
| CronItems.StepRead | src/daemon/cron.rs:144-150 | a step reads exactly when it is non-zero and within the bounds |
| CronItems.DigitsStop | src/daemon/cron.rs:184-186 | the character seen after the digits is the one that follows all of them |
| CronItems.SingleItem | src/daemon/cron.rs:173-179 | a lone number is a single item exactly when in bounds, and backtracks otherwise |
| CronItems.StarStepItem | src/daemon/cron.rs:156-171 | `*/d` is a stepped any item exactly when the step is valid, and a cut otherwise |
| CronItems.SingleStepItem | src/daemon/cron.rs:181-202 | `n/d` is a stepped single item exactly when both are valid, and a cut otherwise |
| CronItems.RangeRead | src/daemon/cron.rs:204-232 | `a-b` is a range exactly when both ends are in bounds and in order, and a cut otherwise |
| CronItems.RangeItem | src/daemon/cron.rs:253-265 | the same for the item parser |
| CronItems.RangeStepItem | src/daemon/cron.rs:234-251 | `a-b/d` is a stepped range exactly when the range and the step are valid, and a cut otherwise |
| CronPatterns.StepsMembers | src/daemon/cron.rs:24-28 | the stepped values are exactly the values on the schedule up to the end, in increasing order |
| CronPatterns.Pad2TwoDigits | src/daemon/cron.rs:26 | a value below 100 renders as two digits that read back as the value |
| CronPatterns.ValuesAdmitted | src/daemon/cron.rs:21-47 | the values listed for an item are exactly the values it admits |
| CronPatterns.ItemAlternatives | src/daemon/cron.rs:21-47 | the alternatives of an item's pattern are two-digit renderings, and a number's rendering is among them exactly when the item admits the number |
| CronPatterns.SpecPatternGroups | src/daemon/cron.rs:60-89 | a spec's pattern is five parenthesised groups, one per field in order, none holding a parenthesis |
| CronSyntax.ItemRoundTrip | src/daemon/cron.rs:363-381 | every valid item written in cron syntax parses back to itself |
| CronSyntax.MoreItemsRoundTrip | src/daemon/cron.rs:267-285 | items written after commas parse back |
| CronSyntax.ItemListRoundTrip | src/daemon/cron.rs:267-285 | a field written as comma-separated items parses back |
| CronSyntax.SpacedRoundTrip | src/daemon/cron.rs:287-310 | a field after spaces parses back |
| CronSyntax.ParseCronspecOf | src/daemon/cron.rs:287-310 | a spec is its five fields read in order after spaces |
| CronSyntax.RoundTrip | src/daemon/cron.rs:452-475 | every well-formed spec, written with any whitespace between fields, parses back to itself |
| CronRefusals.FieldRefused | src/daemon/cron.rs:287-310 | a spec whose field cannot be read is refused, whatever fields come before it |
| CronRefusals.MissingFieldRefused | src/daemon/cron.rs:550-557 | a spec with fewer than five fields is refused |
| CronRefusals.ItemRefusedAt | src/daemon/cron.rs:559-590 | an item the field's parser refuses makes the spec invalid, in any field |
| CronRefusals.NumberRefusedAt | src/daemon/cron.rs:559-590 | a number outside its field's bounds makes the spec invalid |
| CronRefusals.StarStepRefusedAt | src/daemon/cron.rs:592-611 | an invalid step after `*` makes the spec invalid |
| CronRefusals.SingleStepRefusedAt | src/daemon/cron.rs:592-611 | an invalid value or step in `n/d` makes the spec invalid |
| CronRefusals.RangeStepRefusedAt | src/daemon/cron.rs:592-611 | an invalid range or step in `a-b/d` makes the spec invalid |
| CronRefusals.RangeRefusedAt | src/daemon/cron.rs:613-638 | a range with an end out of bounds, or reversed, makes the spec invalid |

## Left out

- Characters, not bytes: text is `seq<char>`. The lexer's byte offsets and UTF-8 decoding are not modelled.
- Substitution.ReplaceRange: the range is in characters, where `String::replace_range` takes UTF-8 byte offsets. Its panic on an end that is not a character boundary is not modelled; only a range past the end is an error.
- Substitution.SubstituteVariables: the drift of later placeholder ranges after a replacement is measured in characters, where the source measures it in UTF-8 bytes. Model and source agree when the text and every variable value are ASCII. With non-ASCII values the source may panic where the model returns a string: for `{a}{b}xyz` with a = "éé" and b = "Z", byte 3 falls inside the second `é`.
- Substitution.SameLengthAgrees: its condition is equal length in characters. In the source the condition would be equal length in UTF-8 bytes, so the lemma carries over to the source only for ASCII values.
- HashMap iteration order: keyword maps are Dafny maps. Where the source's output depends on iteration order, the model states sets or maps instead, except for Interpreter.ResolveKwargs below.
- Interpreter.ResolveKwargs: when several keyword arguments fail to resolve, the model reports the error of the first one in the order the arguments were written. The source iterates a HashMap, so it may report the error of any failing argument.
- The instruction dispatch in `run` (src/scrapelang/program.rs:43-167) has no arm for `clear-headers`, `discard`, `header` or `retain`, although the parser produces them (src/scrapelang/parser.rs:34-74). The `match` is therefore not exhaustive, and the source as written does not compile. The model applies the scraper operation of the same name. Passing the arguments unsubstituted, unlike the `delete` and `extract` arms, is an arbitrary choice, since the source gives no behaviour to follow.
- `prepend` is called in the source with a `?` on a value that is not a `Result`. The model treats it as a plain call.
- The effects runner that receives the emitted effect invocations and dispatches them by name is not part of this model. The interpreter's result is the list of invocations.
- Recursion of `run` into other scripts is bounded by a fuel parameter. The `RecursionLimit` error stands for running out of it. Unbounded recursion (a script that runs itself forever) is not modelled.
- The regular-expression engine is an abstract parameter (compiles, captures, capture groups). The regex crate's semantics are not modelled.
- The HTTP driver of `get` is a parameter. The script loader of `run` is an environment parameter.
- Reading files, the terminal, clocks and desktop notifications are I/O and are left out. `notify` takes the outcome of showing the notification as a parameter (`sendError`).
- The Lua scripting front end (src/scrapelang/luaprogram.rs) is not part of this model.
- `print` with no arguments panics in the source. The model requires a non-empty argument list there.
- Effects.ReportUnknownKwargs: the unknown keys are stated as a set. The order of the source's `Vec` follows HashMap iteration and is not stated.
- Passing the current results as arguments of `run` is an unimplemented TODO in the source and is not modelled.
- The daemon's scheduler loop, the suite runner and configuration loading (src/daemon/mod.rs, src/daemon/suite.rs, src/daemon/config.rs, src/daemon/config_file.rs) are not part of this model.
- Cron.FromStr: the parser library's error messages and context labels are not modelled. Every refusal is one `InvalidCronSpec` error.
- The step of a cron item is checked against the field's lower bound as well as its upper bound. The round-trip lemmas therefore require the lower bound to be at most 1, which every cron field satisfies.
- Cron.ParseRangeStepped: the range is parsed once and the step read after it. This gives the same result as the source's re-parse of the range.
- u8 parsing accepts a leading `+`, as Rust's `u8::from_str` does. The model includes this.
- The fixed examples of `to_regex_pattern` and of `test_parse_valid` are not restated one by one. CronSyntax.RoundTrip, CronPatterns.ItemAlternatives and CronPatterns.SpecPatternGroups state them for every spec.
- CronRefusals.ItemRefusedAt: the invalid-spec tests are covered in the shape of one refused item among `*` fields. A refused item after commas in a field is not stated.
- The corrupted-step property of `test_arbitrary_valid_corrupt_step` is not stated for arbitrary specs. CronRefusals.StarStepRefusedAt, CronRefusals.SingleStepRefusedAt and CronRefusals.RangeStepRefusedAt cover it field by field.
- ParserProperties.EffectWithArgumentsTest: the effect test is stated on the parsing of the `effect` statement, not on the whole program.
- The lexer's unit tests are not restated token by token. The general lemmas on keywords, identifiers, blanks, newlines and string literals cover them.
