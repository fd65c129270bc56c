# rust-lox front end: scanner and expression parser

This project models the front end of rust-lox, a Rust implementation of
the Lox language, in Dafny. It covers four parts:

- **The scanner** (`Scanner`). It is a cursor over the source text
  (`start`, `current`, `line`) that appends tokens to a list:
  - it skips blanks and `//` comments and counts newlines;
  - it reads one- and two-character operators by maximal munch;
  - it reads words, which it looks up in the sixteen-entry keyword table;
  - it reads numbers and quoted strings;
  - it turns any other character into an `Error` token and goes on.
- **The recursive-descent expression parser** (`Interpreter`). Its only
  state is a cursor over the token list. The levels, loosest first, are
  equality, comparison, term, factor, unary and primary. Each binary level
  folds left in a `while` loop. After an error, a level runs `synchronize`
  and parses again, collecting every error.
- **The token data model**: `TokenType`, its `Display` text, `Literal`,
  `Token` and `to_string`.
- **The syntax tree** `Expression`, as a datatype only.

### How the model is built

- **Pure definitions.** Each of the two stateful components is first
  defined as pure functions of its input and cursor: module `Lexing` for
  the scanner and module `Parsing` for the parser. Both follow the branches
  of the source one to one.
- **Classes.** Then the component is written as a class with the source's
  fields and `while` loops: `Scanning.Scanner` and
  `Interpreters.Interpreter`. Each method is proved to return the token or
  tree, and leave the cursor, that the pure definition gives for the old
  state.
- **Properties.** These are proved about the pure definitions:
  - `LexingProps`: the shape of every token, line counting, the single
    trailing `Eof`;
  - `ParsingProps`: a successful parse reads the grammar back, with
    precedence and left association; how the cursor moves; where the parser
    never returns;
  - `LexingExamples` and `ParsingExamples`: the cases the source's tests and
    comments name.

### Behaviour kept as written

The model keeps the source's behaviour, including the cases where it never
returns or panics:

- **Unterminated string.** A string with no closing quote never finishes:
  the loop condition `peek() != '"' || is_at_end()` never becomes false.
  `Lexing.StringEnd` gives `None` for it, and `Lexing.ScanFrom` gives
  `None` for the whole scan. The "unterminated string" `Error` token after
  that loop is unreachable. `Scanning.Scanner.ScanString` proves the cursor
  is still inside the source there.
- **NUL character.** A NUL character reads exactly like the end of the
  source, so it produces an `Eof` token in the middle of the list
  (`LexingProps.ScanNul`, `LexingExamples.NulExample`). With no NUL in the
  source, the list's final `Eof` is its only one (`LexingProps.ScanFacts`).
  Only a NUL where a token starts adds an `Eof` in the middle. The comment
  loop and the string loop step over a NUL, so `//\0` and `"\0"` each
  still give exactly one `Eof` (`LexingExamples.NulInCommentExample`,
  `LexingExamples.NulInStringExample`).
- **`synchronize`.** It advances once. Its loop then returns at once when
  the token just passed is `;`, skips when the cursor is at `Eof`, and
  otherwise spins forever, since its body changes nothing. The keyword
  `match` after the loop only ever sees `Eof`, so it never matches
  (`Parsing.Synchronize`, `ParsingProps.SynchronizeFacts`).
- **Recovery at `Eof`.** At `Eof`, recovery parses again from the same
  place and fails the same way, without end. The input `(1 + 2` therefore
  does not return (`ParsingProps.AtEofNeverReturns`,
  `ParsingExamples.UnclosedGroupingNeverReturns`).
- **Empty program.** On the token list `[Eof]`, `synchronize` calls
  `previous()` at cursor 0, which panics (`ParsingProps.EmptyInputPanics`).

### When errors are reported

A parse returns its error list only in narrow cases (`ParsingProps.RecoverReturns`):

- Every recovery that returns has passed a `;` that is not followed by `Eof`, and has parsed an expression again after it.
- An error raised at the factor level is recovered from again at each binary level above it. So each error needs its own `; expression` pieces, one per level, before `expression` returns.
- A recovery that lands on `Eof` never returns.

`ParsingExamples.OneErrorReported` and `ParsingExamples.TwoErrorsReported` show a parse that returns one error and one that returns two. `ParsingExamples.TwoRegionsNeverReturn` shows that `1 + ; 2 + ;` never returns.

### How divergence is represented

- **Fuel.** The parser's functions take `fuel`, the number of nested
  recoveries allowed. Their result is an `Outcome`:
  - `Returns(result, next)`: the call returns `result` with the cursor at
    `next`;
  - `Stuck(halt)`: the call does not return, where `halt` is one of
    `SyncSpins`, `PreviousUnderflow` or `OutOfFuel`.

  Only recovery spends fuel. Every other recursive call consumes a token or
  goes down one precedence level.
- **Preconditions on the methods.** The class methods require that the pure
  definition returns, so they are proved exactly on the inputs where the
  source returns.

### Where the model departs from the code

- **Token payload.** The payload of a token is `Option<Literal>`, the type
  the scanner passes (src/scanner.rs:217-219). src/token.rs:7 declares
  `Option<String>` instead, so the repository as written does not
  type-check. The model follows the scanner.
- **Numbers.** A number's payload is its lexeme text, not an `f64`, as the
  comment at src/scanner.rs:161-163 intends.
- **Renamed `Literal` constructors.** They are `StringLit`, `NumberLit` and
  `IdentifierLit`, so they do not clash with the token kinds `String`,
  `Number` and `Identifier`.
- **Renamed `Expression` fields.** The field `method` of `Super` is
  `methodName`, and the field `value` of `Set` is `newValue`.

## Model

| member | source | states |
|---|---|---|
| TokenTypes.Display | src/tokentype.rs:73-119 | A kind prints as the empty text exactly when it is `Identifier`, `String` or `Number`. A punctuation kind prints as one character. Exactly `Eof` prints as NUL, and exactly `Error` prints as `error`. |
| TokenTypes.WithEqual | src/tokentype.rs:87-94 | Each of `!`, `=`, `>` and `<` has a two-character kind, whose text is its own text followed by `=`. |
| TokenTypes.LiteralDisplay | src/tokentype.rs:63-71 | A string or identifier payload prints as its text, unchanged. |
| TokenTypes.DebugName | src/tokentype.rs:4-54 | The derived debug name of every kind is non-empty and has no space. |
| TokenTypes.DisplayRoundTrip | src/tokentype.rs:75-116 | Every kind except the three literal kinds is read back from its `Display` text. |
| TokenTypes.DisplayRoundTripSingle | src/tokentype.rs:76-86 | Every single-character punctuation kind is read back from its text. |
| TokenTypes.DisplayRoundTripOperator | src/tokentype.rs:87-94 | Every one- and two-character operator is read back from its text. |
| TokenTypes.DisplayRoundTripWords | src/tokentype.rs:98-105 | The keywords `and` to `nil` are read back from their text. |
| TokenTypes.DisplayRoundTripMoreWords | src/tokentype.rs:106-113 | The keywords `or` to `while` are read back from their text. |
| TokenTypes.DisplayRoundTripSentinel | src/tokentype.rs:114-115 | `Eof` and `Error` are read back from their text. |
| TokenTypes.DisplayInjective | src/tokentype.rs:75-116 | `Display` tells apart every two kinds outside the three literal kinds. |
| TokenTypes.DebugNameRoundTrip | src/tokentype.rs:4-54 | Every kind is read back from its debug name. |
| TokenTypes.DebugNameRoundTripSingle | src/tokentype.rs:6-17 | The punctuation kinds are read back from their debug names. |
| TokenTypes.DebugNameRoundTripOperator | src/tokentype.rs:19-27 | The operator kinds are read back from their debug names. |
| TokenTypes.DebugNameRoundTripWords | src/tokentype.rs:34-42 | The keywords `And` to `Nil` are read back from their debug names. |
| TokenTypes.DebugNameRoundTripMoreWords | src/tokentype.rs:43-50 | The keywords `Or` to `While` are read back from their debug names. |
| TokenTypes.DebugNameRoundTripOthers | src/tokentype.rs:29-53 | The literal kinds, `Eof` and `Error` are read back from their debug names. |
| TokenTypes.DebugNameInjective | src/tokentype.rs:4-54 | Distinct kinds have distinct debug names. |
| Tokens.NewToken | src/token.rs:13-25 | The token stores kind, lexeme, literal and line unchanged. |
| Tokens.ToString | src/token.rs:28-35 | The rendering's length is the debug name's, one space and the lexeme's, plus one space and the literal text when there is a literal. |
| Tokens.ToStringWithLiteral | src/token.rs:29-35 | With a literal, the rendering is the literal-free rendering, then a space, then the literal's text. |
| Tokens.ToStringStartsWithKind | src/token.rs:29-35 | The rendering starts with the kind's debug name and a space. |
| Tokens.ToStringDeterminesKind | src/token.rs:29-35 | Two tokens with the same rendering have the same kind. |
| Lexing.CharAt | src/scanner.rs:226-233 | `peek` and `peek_next` read: the character at an index inside the source, NUL at or past its end. |
| Lexing.KeywordKind | src/scanner.rs:148-152 | A word's kind is `Identifier` exactly when the word is not in the keyword table, and a keyword kind otherwise. |
| Lexing.SkipComment | src/scanner.rs:130-132 | The comment loop stops at the end of the source or on a newline. It moves at least one character when it does not start on a newline. |
| Lexing.SkipWhitespace | src/scanner.rs:118-140 | Skipping blanks never moves the cursor back or lowers the line. |
| Lexing.StringEnd | src/scanner.rs:185-190 | When the string loop stops, it stops inside the source on a quote, with the line not lowered. |
| Lexing.AlphaEnd | src/scanner.rs:144-146 | The word loop never moves back and stays inside the source. `LexingProps.AlphaEndFacts` states that it takes exactly the maximal run of letters. |
| Lexing.DigitsEnd | src/scanner.rs:165-167 | The digit loop never moves back and stays inside the source. `LexingProps.DigitsEndFacts` states that it takes exactly the maximal run of digits. |
| Lexing.NumberEnd | src/scanner.rs:164-176 | The rest of a number never moves back and stays inside the source. `LexingProps.NumberTokenFacts` gives its shape. |
| Lexing.TextToken | src/scanner.rs:217-220 | `new_token`'s lexeme is exactly the source text from `start` to the cursor, character by character, with the kind, literal and line given. |
| Lexing.OperatorToken | src/scanner.rs:68-102 | The two-character kind exactly when `=` follows, otherwise the one-character kind. There is no literal, and the cursor ends just after the lexeme. |
| Lexing.StringToken | src/scanner.rs:184-209 | No token exactly when the string loop never stops. Otherwise a `String` token whose lexeme runs from the opening quote to the closing quote inside the source, and whose line is the line after it. |
| Lexing.NumberToken | src/scanner.rs:164-181 | A `Number` whose literal is its own lexeme, with the cursor just after the lexeme, on the same line. |
| Lexing.IdentifierToken | src/scanner.rs:142-159 | A literal exactly when the kind is `Identifier`, and then it is the word. The cursor ends just after the word, on the same line. |
| Lexing.UnexpectedMessage | src/scanner.rs:112 | The message is `unexpected character '`, the character, then `' `. |
| Lexing.ScanToken | src/scanner.rs:52-116 | One `scan_token` moves the cursor on by at least one, and at most to one past the end. The line never decreases, and the token's line is the line after it. |
| Lexing.TokenAt | src/scanner.rs:57-115 | The `match` of `scan_token` has the same progress and line facts, from the token's first character. |
| Lexing.ScanFromStep | src/scanner.rs:33-36 | A scan that finishes is its first token followed by the scan from after that token. |
| Lexing.ScanFromCons | src/scanner.rs:33-36 | A token followed by a finished scan is a finished scan. |
| Lexing.ScanFrom | src/scanner.rs:33-36 | A scan that finishes has at most one token per character left, plus one. From inside the source it has at least one token. |
| Lexing.Scan | src/scanner.rs:16-46 | A scan that finishes has at least one and at most `len + 1` tokens. |
| LexingProps.KeywordsRoundTrip | src/scanner.rs:240-257 | Every keyword kind is in the table under its `Display` text, so its word scans as that kind. |
| LexingProps.KeywordsDisplay | src/scanner.rs:240-257 | Every word in the table is the `Display` text of a keyword kind, the one it maps to. |
| LexingProps.KindsRoundTripAndToFalse | src/scanner.rs:241-244 | The table maps the `Display` text of `and`, `class`, `else` and `false` back to the kind. |
| LexingProps.KindsRoundTripFunToNil | src/scanner.rs:245-248 | The same for `fun`, `for`, `if` and `nil`. |
| LexingProps.KindsRoundTripOrToSuper | src/scanner.rs:249-252 | The same for `or`, `print`, `return` and `super`. |
| LexingProps.KindsRoundTripThisToWhile | src/scanner.rs:253-256 | The same for `this`, `true`, `var` and `while`. |
| LexingProps.WordsDisplayAndToFalse | src/scanner.rs:241-244 | The words `and` to `false` map to keyword kinds whose `Display` text is that word. |
| LexingProps.WordsDisplayFunToNil | src/scanner.rs:245-248 | The same for the words `fun` to `nil`. |
| LexingProps.WordsDisplayOrToSuper | src/scanner.rs:249-252 | The same for the words `or` to `super`. |
| LexingProps.WordsDisplayThisToWhile | src/scanner.rs:253-256 | The same for the words `this` to `while`. |
| LexingProps.AlphaEndFacts | src/scanner.rs:144-146 | The word loop consumes only letters and stops before a non-letter. |
| LexingProps.DigitsEndFacts | src/scanner.rs:165-167 | The digit loop consumes only digits and stops before a non-digit. |
| LexingProps.StringEndFacts | src/scanner.rs:185-190 | The string loop stops on the first quote, and the line rises by exactly the newlines it passes. |
| LexingProps.StringEndHangs | src/scanner.rs:185-190 | With no quote ahead, the string loop never stops. |
| LexingProps.StringEndNoneMeansNoQuote | src/scanner.rs:185-190 | The loop never stops only when there is no quote ahead. |
| LexingProps.SkipCommentFacts | src/scanner.rs:130-132 | A comment passes no newline. |
| LexingProps.SkipWhitespaceFacts | src/scanner.rs:118-140 | Skipping raises the line by exactly the newlines skipped. It stops at the end of the source or on a character that is neither a blank nor the start of `//`. |
| LexingProps.SkipWhitespaceFirst | src/scanner.rs:118-140 | It stops at the first token start. Everything it skips is a blank, a newline or part of a `//` comment begun in the skipped text. Short of the end of the source, every comment it passed has ended with its newline. With no blank and no `//` under the cursor, it does not move. |
| LexingProps.SkipWhitespaceOnly | src/scanner.rs:118-140 | The converse: a stop that is not a blank or `//`, reached over skipped text with every comment closed, is exactly where it stops. |
| LexingProps.SkipBlankOnly | src/scanner.rs:121-127 | The same, past a leading blank or newline. |
| LexingProps.SkipCommentOnly | src/scanner.rs:128-134 | The same, past a leading line comment. |
| LexingProps.SkipBlankStep | src/scanner.rs:121-127 | A blank moves the cursor by one, and a newline also raises the line; then skipping goes on. |
| LexingProps.SkipCommentStep | src/scanner.rs:128-134 | A `//` runs the comment loop, and skipping goes on from where it stops, on the same line. |
| LexingProps.SkipPastComment | src/scanner.rs:128-134 | After a comment, skipping stops short of the end only past the newline that ends the comment. |
| LexingProps.SkipCommentNoNewline | src/scanner.rs:130-132 | The comment loop passes no newline. |
| LexingProps.TriviaHead | src/scanner.rs:118-140 | Skipped text starts with a blank, a newline or `//`. |
| LexingProps.TriviaBlank | src/scanner.rs:121-127 | A blank in front of skipped text is skipped text, with every comment still closed. |
| LexingProps.TriviaComment | src/scanner.rs:128-134 | A whole comment in front of skipped text is skipped text. It is closed when its newline comes before the stop. |
| LexingProps.ScanPunctuation | src/scanner.rs:58-67 | A punctuation character becomes its kind, with the character as lexeme and no literal, and moves the cursor by one. |
| LexingProps.ScanOperator | src/scanner.rs:68-102 | `!`, `=`, `<` and `>` followed by `=` give the two-character kind with a two-character lexeme. Otherwise they give the one-character kind. |
| LexingProps.DispatchOperator | src/scanner.rs:68-102 | An operator character is handed to the one-character-lookahead branch. |
| LexingProps.OperatorTokenFacts | src/scanner.rs:68-102 | The lookahead branch takes `=` into the token exactly when it follows. |
| LexingProps.ScanWord | src/scanner.rs:142-159 | A word is the maximal run of letters. In the table it is that keyword with no literal, and otherwise `Identifier` with the word as literal. |
| LexingProps.DispatchWord | src/scanner.rs:109-110 | A letter is handed to `identifier`. |
| LexingProps.IdentifierTokenFacts | src/scanner.rs:142-159 | `identifier` reads the maximal word and classifies it as `ScanWord` says. |
| LexingProps.DispatchNumber | src/scanner.rs:107-108 | A digit is handed to `number`. |
| LexingProps.NumberTokenFacts | src/scanner.rs:164-181 | `number` reads digits, optionally `.` and digits. No digit follows it, and a dot it does not take is not followed by a digit. |
| LexingProps.LeadingDigits | src/scanner.rs:165-167 | The digits before any dot are at least one. |
| LexingProps.FractionDigits | src/scanner.rs:169-176 | A dot followed by a digit is taken, together with the digits after it. |
| LexingProps.ScanNumber | src/scanner.rs:164-181 | A digit starts a `Number` whose lexeme has the number shape and whose literal is its lexeme. |
| LexingProps.DispatchString | src/scanner.rs:104 | A quote is handed to `string`. |
| LexingProps.StringTokenFacts | src/scanner.rs:184-209 | `string` never returns exactly when no quote follows. Otherwise its lexeme is the text in quotes, its literal is that text, which holds no quote, and the line rises by the text's newlines. |
| LexingProps.ScanStringLiteral | src/scanner.rs:184-209 | The same, from the opening quote in `scan_token`. |
| LexingProps.ScanUnexpected | src/scanner.rs:106-113 | Any other character gives an `Error` token whose message names it, and the cursor moves by one. |
| LexingProps.ScanNul | src/scanner.rs:105 | At the end of the source, and at a NUL, the token is `Eof` with an empty lexeme. |
| LexingProps.PunctuationKind | src/scanner.rs:58-67 | Each punctuation character is the `Display` text of a single-character kind. |
| LexingProps.OperatorKind | src/scanner.rs:68-102 | Each of `!`, `=`, `<` and `>` is the `Display` text of a one-character operator. |
| LexingProps.DisplayTokenWellFormed | src/scanner.rs:217-219 | A token whose lexeme is its kind's `Display` text, with no literal, is well formed. |
| LexingProps.PunctuationFacts | src/scanner.rs:58-67 | Punctuation tokens are well formed, and none is `Eof`. |
| LexingProps.OperatorFacts | src/scanner.rs:68-102 | Operator tokens are well formed: the lexeme is the kind's `Display` text and there is no literal. |
| LexingProps.WordFacts | src/scanner.rs:142-159 | Keyword and identifier tokens are well formed. |
| LexingProps.StringFacts | src/scanner.rs:184-209 | String tokens are well formed. |
| LexingProps.TokenAtFacts | src/scanner.rs:52-116 | Every token is well formed: a literal exactly for `String`, `Number` and `Identifier`, a lexeme that is the `Display` text for every other kind except `Error` (whose lexeme is the message) and `Eof` (whose lexeme is empty). It is `Eof` exactly at NUL or at the end. |
| LexingProps.ScanTokenFacts | src/scanner.rs:52-116 | The same for one `scan_token`, after blanks and comments. |
| LexingProps.ScanFromFacts | src/scanner.rs:28-46 | A finished scan from any cursor: well-formed tokens, lines that never decrease, a last token that is `Eof` and, with no NUL, no other `Eof`. |
| LexingProps.ScanFromFirst | src/scanner.rs:33-36 | The first round of the scan loop: the first token and the rest of the scan. |
| LexingProps.ConsTokens | src/scanner.rs:33-36 | One more token in front of a scanned list keeps the list's facts. |
| LexingProps.ConsWellFormed | src/scanner.rs:33-36 | One more token in front keeps every token well formed and on a line from the start line on. |
| LexingProps.ConsLines | src/scanner.rs:33-36 | One more token in front keeps lines in order. |
| LexingProps.ConsEof | src/scanner.rs:33-36 | One more token in front keeps the trailing `Eof`, and its uniqueness. |
| LexingProps.ScanFacts | src/scanner.rs:23-46 | When the whole scan from line 1 finishes: well-formed tokens on lines from 1 on, ending with `Eof`, which is the only one when there is no NUL. `LexingTermination.ScanTokensFacts` states it for every source whose strings close. |
| LexingTermination.CommentMode | src/scanner.rs:130-132 | A comment, read to its end, leaves the reading inside a string exactly when the code after it does. |
| LexingTermination.SkipMode | src/scanner.rs:118-140 | Skipping blanks and comments does not change whether the reading ends inside a string. |
| LexingTermination.AlphaMode | src/scanner.rs:144-146 | A word is code the reading passes over. |
| LexingTermination.DigitsMode | src/scanner.rs:165-167 | A run of digits is code the reading passes over. |
| LexingTermination.NumberMode | src/scanner.rs:164-181 | A whole number is code the reading passes over. |
| LexingTermination.StringMode | src/scanner.rs:185-190 | Inside a string, the reading returns to code just after the quote where the string loop stops. |
| LexingTermination.StringModeHangs | src/scanner.rs:185-190 | When the string loop never stops, the reading ends inside the string. |
| LexingTermination.TokenMode | src/scanner.rs:52-116 | One token that hangs means the reading from its start ends in a string. One that finishes leaves the reading after it ending as the reading from its start. |
| LexingTermination.StringTokenMode | src/scanner.rs:184-209 | The same for a string token. |
| LexingTermination.OperatorMode | src/scanner.rs:68-102 | An operator token always finishes, and the reading passes over it. |
| LexingTermination.OneCharMode | src/scanner.rs:58-67 | Punctuation, NUL and an unexpected character are one-character tokens the reading passes over. |
| LexingTermination.ScanFromFinishes | src/scanner.rs:28-46 | The scan loop from any cursor finishes exactly when the reading from there does not end inside a string. |
| LexingTermination.ScanFinishes | src/scanner.rs:23-46 | `scan_tokens` returns exactly when every string literal in the code closes. |
| LexingTermination.QuoteFreeMode | src/scanner.rs:184-190 | Text with no quote, read from code or a comment, never ends inside a string. |
| LexingTermination.QuoteFreeScanFinishes | src/scanner.rs:23-46 | A source with no `"` is always scanned to the end. |
| LexingTermination.ScanTokensFacts | src/scanner.rs:23-46 | When every string closes, the scan returns, and its tokens are well formed, on lines from 1 on in order, ending with `Eof`. With no NUL, that `Eof` is the only one. |
| LexingExamples.MaximalMunchExample | src/scanner.rs:85-92 | In `<==`, the first token is `<=`. |
| LexingExamples.MaximalMunchRestExample | src/scanner.rs:76-83 | In `<==`, the last `=` is a token of its own. |
| LexingExamples.KeywordExample | src/scanner.rs:142-159 | `class` is the keyword `Class` with no literal. |
| LexingExamples.IdentifierExample | src/scanner.rs:142-159 | `classic` is an identifier with literal `classic`. |
| LexingExamples.TrailingDotExample | src/scanner.rs:169-172 | In `123.`, the number is `123`. |
| LexingExamples.FractionExample | src/scanner.rs:164-181 | `1.5` is one number. |
| LexingExamples.CommentExample | src/scanner.rs:118-140 | A comment runs to the end of its line, and its newline counts. |
| LexingExamples.UnexpectedExample | src/scanner.rs:106-113 | `@` is an `Error` token with message `unexpected character '@' `. |
| LexingExamples.NulExample | src/scanner.rs:105 | A NUL in `a\0b` is an `Eof` token in the middle of the list. |
| LexingExamples.NulInCommentExample | src/scanner.rs:130-132 | `//\0` scans to one `Eof`: the comment loop steps over the NUL. |
| LexingExamples.NulInStringExample | src/scanner.rs:185-190 | `"\0"` scans to a `String` holding the NUL, then one `Eof`: the string loop steps over the NUL. |
| LexingExamples.UnterminatedStringExample | src/scanner.rs:185-190 | The scan of `"abc` never finishes. |
| LexingExamples.OperatorRunExample | src/scanner.rs:264-294 | `=<><===` scans as `=`, `<`, `>`, `<=`, `==` and `Eof`. |
| LexingExamples.OperatorRunAt0 | src/scanner.rs:76-83 | The scan of `=<><===` at offset 0 is `=`. |
| LexingExamples.OperatorRunAt1 | src/scanner.rs:85-92 | The scan at offset 1 is `<`. |
| LexingExamples.OperatorRunAt2 | src/scanner.rs:94-101 | The scan at offset 2 is `>`. |
| LexingExamples.OperatorRunAt3 | src/scanner.rs:85-92 | The scan at offset 3 is `<=`. |
| LexingExamples.OperatorRunAt5 | src/scanner.rs:76-83 | The scan at offset 5 is `==`. |
| LexingExamples.OperatorRunAt7 | src/scanner.rs:105 | At the end of `=<><===` the token is `Eof`. |
| LexingExamples.ScanRun | src/scanner.rs:33-36 | Tokens read one after the other, the last ending past the end of the source, are the whole scan. |
| LexingExamples.NoBlankBefore | src/scanner.rs:118-140 | With no blank or comment at the cursor, `scan_token` reads right there. |
| Scanning.Scanner.constructor | src/scanner.rs:16-25 | A new scanner has no tokens, `start` and `current` at 0, and `line` at 1. |
| Scanning.Scanner.ScanTokens | src/scanner.rs:28-46 | The loop appends exactly the tokens of the scan from the cursor and ends one past the end of the source. |
| Scanning.Scanner.ScanToken | src/scanner.rs:52-116 | It returns the token `Lexing.ScanToken` gives and leaves the cursor after it. |
| Scanning.Scanner.SkipWhitespace | src/scanner.rs:118-140 | It leaves the cursor and line `Lexing.SkipWhitespace` gives. |
| Scanning.Scanner.ScanIdentifier | src/scanner.rs:142-159 | It returns the token and cursor `Lexing.IdentifierToken` gives. |
| Scanning.Scanner.ScanNumber | src/scanner.rs:164-182 | It returns the token and cursor `Lexing.NumberToken` gives. |
| Scanning.Scanner.ScanString | src/scanner.rs:184-209 | It returns the token, cursor and line `Lexing.StringToken` gives. The unterminated branch is unreachable. |
| Scanning.Scanner.Advance | src/scanner.rs:211-215 | It returns the character at the old cursor, NUL past the end, and moves the cursor by one. |
| Scanning.Scanner.NewToken | src/scanner.rs:217-220 | The token has the text from `start` to `current` as lexeme, on the current line. |
| Scanning.Scanner.NewEof | src/scanner.rs:222-224 | An `Eof` token with an empty lexeme and no literal, on the current line, and it is well formed. |
| Scanning.Scanner.Peek | src/scanner.rs:226-229 | The character at the cursor inside the source, NUL at or past its end. |
| Scanning.Scanner.PeekNext | src/scanner.rs:231-233 | The character after the cursor inside the source, NUL at or past its end. |
| Scanning.Scanner.ErrorToken | src/scanner.rs:235-237 | An `Error` token whose lexeme is the message, with no literal, and it is well formed. |
| Parsing.Synchronize | src/interpreter.rs:226-247 | When it returns, the cursor has not moved back and is still valid. It stayed put exactly when it started at `Eof`. |
| Parsing.Check | src/interpreter.rs:212-217 | `check(k)` is a plain comparison of the cursor's kind with `k`, except that it is never true for `Eof`. |
| Parsing.AdvancePos | src/interpreter.rs:249-254 | `advance` stays put exactly at `Eof`, and otherwise moves one token on. |
| Parsing.Consume | src/interpreter.rs:219-224 | A wrong kind gives `[MissingToken(k)]` with the cursor unchanged. It panics exactly on `consume(Eof)` at cursor 0 on `Eof`. A success leaves the cursor where `advance` does. |
| Parsing.Parse | src/interpreter.rs:23-25 | A returned parse leaves a valid cursor. Success consumes at least one token, and an error carries at least one error. |
| Parsing.Recover | src/interpreter.rs:128-137 | The result is always an error whose list starts with the errors so far, and the cursor does not move back. |
| Parsing.Expression | src/interpreter.rs:27-29 | A returned parse leaves a valid cursor. Success consumes at least one token, and an error carries at least one error. |
| Parsing.Binary | src/interpreter.rs:31-152 | The same for each binary level. |
| Parsing.Operand | src/interpreter.rs:33-127 | The same for a level's operand. |
| Parsing.BinaryLoop | src/interpreter.rs:142-150 | The operator loop leaves a valid cursor, and an error carries at least one error. |
| Parsing.Unary | src/interpreter.rs:154-165 | The same progress and error facts for `unary`. |
| Parsing.Primary | src/interpreter.rs:167-198 | The same progress and error facts for `primary`. |
| Parsing.LoopRound | src/interpreter.rs:142-150 | One round of a returning loop: the operand after the operator returns, then either its error is the result or the loop goes on with the fold. |
| Parsing.BinaryStart | src/interpreter.rs:126-140 | A returning level starts with a returning operand, then recovers or loops. |
| Parsing.LoopEnd | src/interpreter.rs:142-151 | With no operator next, the loop returns its left operand where it stands. |
| Parsing.UnaryRound | src/interpreter.rs:155-161 | A returning prefixed `unary` has a returning inner `unary`, whose error or tree it passes on. |
| Parsing.GroupingRound | src/interpreter.rs:190-196 | A returning grouping has a returning inner expression, then a `)` check. Success means the `)` is there. |
| Interpreters.Interpreter.constructor | src/interpreter.rs:19-21 | A new parser holds the tokens, with the cursor at 0. On a list ending in `Eof`, the invariant `Valid` holds. |
| Interpreters.Interpreter.Parse | src/interpreter.rs:23-25 | It returns the result and cursor `Parsing.Expression` gives and keeps the cursor valid. |
| Interpreters.Interpreter.Expression | src/interpreter.rs:27-29 | The same, via `equality`. |
| Interpreters.Interpreter.Equality | src/interpreter.rs:31-50 | It returns what `Parsing.Binary` gives at the equality level. |
| Interpreters.Interpreter.EqualityLoop | src/interpreter.rs:52-62 | Its `while` loop returns what `Parsing.BinaryLoop` gives. |
| Interpreters.Interpreter.Comparison | src/interpreter.rs:65-79 | It returns what `Parsing.Binary` gives at the comparison level. |
| Interpreters.Interpreter.ComparisonLoop | src/interpreter.rs:81-95 | Its `while` loop returns what `Parsing.BinaryLoop` gives. |
| Interpreters.Interpreter.Term | src/interpreter.rs:98-112 | It returns what `Parsing.Binary` gives at the term level. |
| Interpreters.Interpreter.TermLoop | src/interpreter.rs:114-123 | Its `while` loop returns what `Parsing.BinaryLoop` gives. |
| Interpreters.Interpreter.Factor | src/interpreter.rs:126-140 | It returns what `Parsing.Binary` gives at the factor level. |
| Interpreters.Interpreter.FactorLoop | src/interpreter.rs:142-151 | Its `while` loop returns what `Parsing.BinaryLoop` gives. |
| Interpreters.Interpreter.Recover | src/interpreter.rs:128-137 | `synchronize`, a second parse, and the errors pushed one by one: what `Parsing.Recover` gives. |
| Interpreters.Interpreter.Unary | src/interpreter.rs:154-165 | It returns what `Parsing.Unary` gives. |
| Interpreters.Interpreter.Primary | src/interpreter.rs:167-198 | It returns what `Parsing.Primary` gives. |
| Interpreters.Interpreter.CheckAndConsume | src/interpreter.rs:202-210 | It answers whether a listed kind matches, never at `Eof`. It moves one token exactly when it answers true, and otherwise nothing. |
| Interpreters.Interpreter.Check | src/interpreter.rs:212-217 | False at `Eof`, and otherwise whether the token under the cursor has the kind. |
| Interpreters.Interpreter.Consume | src/interpreter.rs:219-224 | It returns what `Parsing.Consume` gives and keeps the cursor valid. |
| Interpreters.Interpreter.Synchronize | src/interpreter.rs:226-247 | It leaves the cursor where `Parsing.Synchronize` says, on the inputs where it returns. |
| Interpreters.Interpreter.Advance | src/interpreter.rs:249-254 | It moves one token unless at `Eof`, and returns the token before the cursor. |
| Interpreters.Interpreter.Peek | src/interpreter.rs:258-260 | The token under the cursor. |
| Interpreters.Interpreter.Previous | src/interpreter.rs:264-266 | The token before the cursor. |
| Scanning.Scanner.IsAtEnd | src/scanner.rs:48-50 | True exactly when `current` is at or past the end of the source; then the character under the cursor reads as NUL, and otherwise it is the source character there. |
| Interpreters.Interpreter.IsAtEnd | src/interpreter.rs:268-270 | Whether the token under the cursor is `Eof`. |
| ParsingProps.ExpressionSound | src/interpreter.rs:27-29 | A successful parse's tree yields exactly the consumed tokens, with parentheses up to their text. It is well precedenced and left associative. The parse stops where no binary operator is next, so it consumed the longest expression the grammar allows. |
| ParsingProps.BinarySound | src/interpreter.rs:31-152 | The same for every binary level, with the tree binding no looser than the level. The level stops where no operator of it or of a tighter level is next. |
| ParsingProps.BinaryMaximal | src/interpreter.rs:31-152 | A level that returns a tree stops where no operator of it or of a tighter level is next. |
| ParsingProps.OperandMaximal | src/interpreter.rs:33-127 | A level's operand stops where no operator of a tighter level is next. |
| ParsingProps.LoopMaximal | src/interpreter.rs:142-150 | The loop, entered where no tighter operator is next, also stops where no operator of its own level is next. |
| ParsingProps.OperatorsHeight | src/interpreter.rs:31-152 | A kind is an operator of a level exactly when its precedence is that level's precedence. |
| ParsingProps.OperandSound | src/interpreter.rs:33-127 | A level's operand binds strictly tighter than the level. |
| ParsingProps.LoopSound | src/interpreter.rs:142-150 | The loop's tree yields `left` followed by the tokens it consumed. |
| ParsingProps.LoopRoundSound | src/interpreter.rs:142-150 | The same, for one round followed by the rest of the loop. |
| ParsingProps.FoldSound | src/interpreter.rs:145-149 | Folding the consumed operator between `left` and the operand keeps the yield and the precedence. |
| ParsingProps.FoldPrecedence | src/interpreter.rs:145-149 | A left operand binding no looser, and a right one binding strictly tighter, make a well-precedenced fold. |
| ParsingProps.UnarySound | src/interpreter.rs:154-165 | A `unary` tree yields its tokens and is not a binary expression. |
| ParsingProps.PrefixSound | src/interpreter.rs:155-161 | A prefix operator before a unary tree yields the operator and that tree's tokens. |
| ParsingProps.PrimarySound | src/interpreter.rs:167-198 | A `primary` tree yields its tokens. |
| ParsingProps.LiteralSound | src/interpreter.rs:168-188 | `false`, `true`, `nil`, a number or a string becomes a `Literal` of exactly that token, one token on. |
| ParsingProps.GroupSound | src/interpreter.rs:190-196 | A grouping yields `(`, the inner tokens and `)`. |
| ParsingProps.GroupingSound | src/interpreter.rs:190-196 | The same, given the inner expression and the closing parenthesis. |
| ParsingProps.MatchesNotEof | src/interpreter.rs:202-217 | A match is never on `Eof` and moves to a valid cursor. At `Eof`, `check` is false even for `Eof`. |
| ParsingProps.MatchesSomeCheck | src/interpreter.rs:202-210 | `check_and_consume` answers true exactly when `check` passes for one of its kinds (the predicate `Parsing.Matches`). |
| ParsingProps.AtEndIsFirstEof | src/interpreter.rs:268-270 | At a valid cursor, `is_at_end` holds exactly on the first `Eof`. |
| ParsingProps.AdvanceFacts | src/interpreter.rs:249-254 | `advance` stays put exactly at `Eof`, and otherwise moves exactly one token. The cursor stays valid. |
| ParsingProps.ConsumeFacts | src/interpreter.rs:219-224 | A wrong kind gives `[MissingToken(k)]` with the cursor unchanged. A right kind moves one token. `consume(Eof)` at `Eof` stays put, and at cursor 0 panics in `previous`. |
| ParsingProps.SynchronizeFacts | src/interpreter.rs:226-247 | It returns exactly when, after one `advance`, the cursor is at `Eof` or the token just passed is `;`. It then stands where that `advance` left it. It panics exactly at `Eof` on cursor 0. |
| ParsingProps.RecoverReturns | src/interpreter.rs:128-137 | A recovery returns only past a `;` that is not followed by `Eof`, with fuel left, and only when the re-parse after the `;` returns. It returns the old errors followed by the re-parse's errors, where the re-parse stopped. |
| ParsingProps.UnaryIsPrimary | src/interpreter.rs:154-165 | With no `!` or `-` next, `unary` is exactly `primary`. |
| ParsingProps.LoopStep | src/interpreter.rs:142-150 | An operator and an operand tree fold into `left`, and the loop goes on after them. |
| ParsingProps.PrefixStep | src/interpreter.rs:155-161 | `!` or `-` and the unary tree after it make a `Unary`. |
| ParsingProps.GroupStep | src/interpreter.rs:190-196 | After `(` and an expression, a `)` makes a `Grouping`. Anything else gives `[MissingToken(RightParen)]`. |
| ParsingProps.PrimaryUnexpected | src/interpreter.rs:197 | Any token that starts no literal or grouping gives `[UnexpectedToken(peek())]`, with the cursor unchanged. |
| ParsingProps.AtEofNeverReturns | src/interpreter.rs:128-137 | An expression at `Eof` never returns, whatever the fuel. It panics at cursor 0 and otherwise recurses without end. |
| ParsingProps.StuckOperand | src/interpreter.rs:31-48 | A factor-level operand that does not return stops every level above it. |
| ParsingProps.EmptyInputPanics | src/interpreter.rs:226-227 | On `[Eof]`, `parse` panics in `previous`, whatever the fuel. |
| ParsingExamples.LevelStart | src/interpreter.rs:126-140 | A level whose operand returns a tree goes on with its loop from after it. |
| ParsingExamples.PassThrough | src/interpreter.rs:140-151 | An operand followed by no operator of the level is the level's result. |
| ParsingExamples.Atom | src/interpreter.rs:126-152 | A literal not followed by `*` or `/` is, at the factor level, that literal. |
| ParsingExamples.ToTop | src/interpreter.rs:27-124 | A factor-level tree followed by no binary operator is the whole expression. |
| ParsingExamples.TermToTop | src/interpreter.rs:27-96 | A term-level tree followed by no binary operator is the whole expression. |
| ParsingExamples.SumOfTwo | src/interpreter.rs:114-122 | Two literals joined by `+` or `-` are one `Binary`. |
| ParsingExamples.ProductOfTwo | src/interpreter.rs:142-150 | Two literals joined by `*` or `/` are one `Binary` at the factor level. |
| ParsingExamples.StopsBeforeEof | src/interpreter.rs:23-25 | `1 2` parses as `Literal(1)` with the cursor on `2`. |
| ParsingExamples.LeftAssociative | src/interpreter.rs:114-122 | `1 - 2 - 3` parses as `Binary(Binary(1, -, 2), -, 3)`. |
| ParsingExamples.FactorBindsTighter | src/interpreter.rs:98-152 | `1 + 2 * 3` parses as `Binary(1, +, Binary(2, *, 3))`. |
| ParsingExamples.GroupOfSum | src/interpreter.rs:190-196 | `(1 + 2)` is a `Grouping` of the sum. |
| ParsingExamples.GroupingFirst | src/interpreter.rs:126-196 | `(1 + 2) * 3` parses as `Binary(Grouping(1 + 2), *, 3)`. |
| ParsingExamples.DoublePrefix | src/interpreter.rs:154-165 | Two prefix operators before a literal nest, the first outermost. |
| ParsingExamples.PrefixNests | src/interpreter.rs:154-165 | `- - 1` parses as `Unary(-, Unary(-, 1))`. |
| ParsingExamples.UnclosedGroupingNeverReturns | src/interpreter.rs:128-137 | `(1 + 2` never returns, whatever the fuel: the missing `)` starts recovery at `Eof`. |
| ParsingExamples.GroupTimesLiteral | src/interpreter.rs:126-196 | At the factor level, `(a + b) * c` is `Binary(Grouping(a + b), *, c)`. |
| ParsingExamples.SemicolonUnexpected | src/interpreter.rs:154-198 | A `;` under the cursor gives `[UnexpectedToken(;)]` from `unary` without moving, and sends the factor level into recovery. |
| ParsingExamples.LiteralAlone | src/interpreter.rs:27-198 | A literal followed by no binary operator is the whole expression. |
| ParsingExamples.RecoverOverLiteral | src/interpreter.rs:128-137 | A recovery over a `;` and a lone literal returns the errors unchanged, after the literal. |
| ParsingExamples.RecoverWithErrors | src/interpreter.rs:128-137 | A recovery over a `;` whose re-parse returns errors returns the old errors followed by the new ones. |
| ParsingExamples.ClimbOne | src/interpreter.rs:31-124 | An error from a level's operand, recovered over `; literal`, comes back from the level after the literal. |
| ParsingExamples.ClimbTwo | src/interpreter.rs:31-96 | An error at the term level needs two more `; literal` pieces before `expression` returns it. |
| ParsingExamples.ErrorClimbs | src/interpreter.rs:31-124 | An error at the factor level needs three more `; literal` pieces, one per level above, before `expression` returns it. |
| ParsingExamples.NotAnOperator | src/interpreter.rs:31-152 | Neither `;` nor `Eof` is a binary operator. |
| ParsingExamples.OneErrorCascades | src/interpreter.rs:31-198 | Four `; literal` pieces, the first `;` being the stray one: `expression` returns the one error `UnexpectedToken(;)` after them. |
| ParsingExamples.OneErrorReported | src/interpreter.rs:23-198 | `; 1 ; 1 ; 1 ; 1` parses to `Err([UnexpectedToken(;)])` with the cursor on `Eof`. With no recovery allowed, it is out of fuel. |
| ParsingExamples.OneErrorPieces | src/interpreter.rs:23-198 | The same for any list with those pieces followed by no binary operator. |
| ParsingExamples.ShapedEnd | src/interpreter.rs:268-270 | The last token of a list of the shape is a valid cursor and no binary operator. |
| ParsingExamples.NoFuelNoRecovery | src/interpreter.rs:128-137 | With no recovery allowed, a `;` followed by anything but `Eof` is out of fuel. |
| ParsingExamples.TwoErrorsReported | src/interpreter.rs:23-198 | `;` followed by seven `; literal` pieces parses to `Err([UnexpectedToken(;), UnexpectedToken(;)])` on `Eof`: both errors, in order. |
| ParsingExamples.TwoErrorsPieces | src/interpreter.rs:23-198 | The same for any list with those pieces followed by no binary operator. |
| ParsingExamples.NestedError | src/interpreter.rs:128-137 | When the re-parse after the first `;` returns the second error, the factor level returns both, the first one first. |
| ParsingExamples.OperandStuck | src/interpreter.rs:31-124 | A level whose operand does not return does not return. |
| ParsingExamples.LoopStuck | src/interpreter.rs:142-150 | A loop whose operand after the operator does not return does not return. |
| ParsingExamples.SumStuck | src/interpreter.rs:98-124 | A literal and `+` or `-` before a factor level that does not return: the whole expression does not return. |
| ParsingExamples.SemicolonAtEndStuck | src/interpreter.rs:128-137 | A `;` just before `Eof` does not return, whatever the fuel. Its recovery re-parses at `Eof`. |
| ParsingExamples.SemicolonThenStuck | src/interpreter.rs:128-137 | A `;` whose re-parse does not return does not return. |
| ParsingExamples.TwoRegionsNeverReturn | src/interpreter.rs:23-198 | `1 + ; 2 + ;` never returns, whatever the fuel, so its two errors are never reported. |

## Left out

- `src/main.rs` and `src/lox.rs` are not part of this model. They are the command line, file reading, the prompt loop and printing.
- The conversion of a number's text to `f64`, and the float formatting of `Literal::Number`, are left out because they are floating point. A number carries its lexeme text.
- Unicode classification is left out: letters and digits are ASCII only. The model has one index for characters, so the difference between `chars().nth` and byte slicing does not arise.
- The `phf` table machinery is left out: the keyword table is a plain map of sixteen entries.
- The commented-out push of a final `Eof` is left out. The `scanner_scans_numbers` test never scans anything, so it is left out too.
- The unit tests are not reproduced token for token. The keyword, string, operator and NUL behaviour they check is covered by the general lemmas. The `=<><===` run has its own whole-scan example.
- Parsing.Expression: the parser's recursion is bounded by `fuel`, the number of nested recoveries. `Stuck(OutOfFuel)` stands for recursion without end. `ParsingProps.AtEofNeverReturns`, `ParsingExamples.UnclosedGroupingNeverReturns`, `ParsingExamples.SemicolonAtEndStuck` and `ParsingExamples.TwoRegionsNeverReturn` prove that recursion is endless for every fuel on their inputs.
- Scanning.Scanner.ScanTokens: proved under the precondition that the scan finishes. `LexingTermination.ScanFinishes` shows that this holds exactly when every string literal closes. The hang itself is stated by `LexingProps.StringEndHangs`.
- Interpreters.Interpreter.Parse: each parser method requires that the pure definition returns, so the methods say nothing about inputs on which the source spins or panics. Those inputs are described on the pure definitions.
- Interpreters.Interpreter.Synchronize: the `while !is_at_end()` loop is written as one round. Its body changes no state, so a second round is the spin the precondition excludes.
- Interpreters.Interpreter.Peek and Interpreters.Interpreter.Previous: the source's `unwrap` panics are preconditions here. `Previous` at cursor 0 is reached only through `synchronize` on `[Eof]`, which `ParsingProps.EmptyInputPanics` states.
- Each binary level's `while` loop is its own method, `EqualityLoop` through `FactorLoop`, called where the loop stands in the source.
- The parser examples are stated for every token list of the given shape, such as literal, term operator and literal, rather than for scanned source text.
- The `Expression` constructors the parser never builds (`Assign`, `Call`, `Get`, `Logical`, `Set`, `Super`, `This`, `Variable`) are only constructors of the datatype.
