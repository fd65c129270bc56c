/**
 * What the scanner computes, as functions of the source text and the cursor
 * (`current`, `line`). Each function mirrors one loop or branch of the
 * scanner; the class in module Scanning is proved to compute exactly these.
 * A result of `None` means the scanner does not return (an unterminated
 * string literal).
 */
module Lexing {

  import opened Options
  import opened TokenTypes
  import opened Tokens

  /** The cursor: the next character to read and the current line. */
  datatype Pos = Pos(current: nat, line: nat)

  /** One scanned token and the cursor after it. */
  datatype Step = Step(token: Token, next: Pos)

  /** `chars().nth(i).unwrap_or('\0')`: the character at `i`, or NUL at or past the end. */
  function CharAt(source: string, i: nat): (c: char)
    ensures i < |source| ==> c == source[i]
    ensures |source| <= i ==> c == '\0'
  {
    if i < |source| then source[i] else '\0'
  }

  /** Decimal digits, as `is_digit(10)` classifies them. */
  predicate IsDigit(c: char) {
    '0' <= c <= '9'
  }

  /** Alphabetic characters, restricted to ASCII letters. */
  predicate IsAlpha(c: char) {
    'a' <= c <= 'z' || 'A' <= c <= 'Z'
  }

  /** The sixteen reserved words and their kinds. */
  const Keywords: map<string, TokenType> := map[
    "and" := And, "class" := Class, "else" := Else, "false" := False,
    "fun" := Fun, "for" := For, "if" := If, "nil" := Nil,
    "or" := Or, "print" := Print, "return" := Return, "super" := Super,
    "this" := This, "true" := True, "var" := Var, "while" := While]

  /** The kind of an alphabetic word: its keyword kind, or `Identifier` when it is not reserved. */
  function KeywordKind(text: string): (k: TokenType)
    ensures k == Identifier || IsKeyword(k)
    ensures k == Identifier <==> text !in Keywords
  {
    if text in Keywords then Keywords[text] else Identifier
  }

  /** The inner comment loop: the cursor stops on the next newline, or at the end. */
  function SkipComment(source: string, cur: nat): (r: nat)
    requires cur <= |source|
    ensures cur <= r <= |source|
    ensures r == |source| || source[r] == '\n'
    ensures cur < |source| && source[cur] != '\n' ==> cur < r
    decreases |source| - cur
  {
    if CharAt(source, cur) != '\n' && cur < |source| then SkipComment(source, cur + 1) else cur
  }

  /** `skip_whitespace`: drops blanks and line comments, counting newlines. */
  function SkipWhitespace(source: string, pos: Pos): (r: Pos)
    requires pos.current <= |source|
    ensures pos.current <= r.current <= |source|
    ensures pos.line <= r.line
    decreases |source| - pos.current
  {
    if pos.current >= |source| then pos
    else
      var c := CharAt(source, pos.current);
      if c == ' ' || c == '\r' || c == '\t' then
        SkipWhitespace(source, Pos(pos.current + 1, pos.line))
      else if c == '\n' then
        SkipWhitespace(source, Pos(pos.current + 1, pos.line + 1))
      else if c == '/' && CharAt(source, pos.current + 1) == '/' then
        SkipWhitespace(source, Pos(SkipComment(source, pos.current), pos.line))
      else
        pos
  }

  /** The end of the run of letters starting at `cur`. */
  function AlphaEnd(source: string, cur: nat): (r: nat)
    requires cur <= |source|
    ensures cur <= r <= |source|
    decreases |source| - cur
  {
    if IsAlpha(CharAt(source, cur)) then AlphaEnd(source, cur + 1) else cur
  }

  /** The end of the run of digits starting at `cur`. */
  function DigitsEnd(source: string, cur: nat): (r: nat)
    requires cur <= |source|
    ensures cur <= r <= |source|
    decreases |source| - cur
  {
    if IsDigit(CharAt(source, cur)) then DigitsEnd(source, cur + 1) else cur
  }

  /** The end of a number whose first digit is already consumed: digits, then `.` only if a digit follows, then digits. */
  function NumberEnd(source: string, cur: nat): (r: nat)
    requires cur <= |source|
    ensures cur <= r <= |source|
  {
    var whole := DigitsEnd(source, cur);
    var dot := if CharAt(source, whole) == '.' && IsDigit(CharAt(source, whole + 1)) then whole + 1 else whole;
    DigitsEnd(source, dot)
  }

  /**
   * The string loop: the position of the next `"` at or after `cur`, with
   * the line advanced by the newlines passed. `None`: there is no such quote,
   * and the loop never exits.
   */
  function StringEnd(source: string, pos: Pos): (r: Option<Pos>)
    ensures r.Some? ==> pos.current <= r.value.current < |source| && source[r.value.current] == '"'
    ensures r.Some? ==> pos.line <= r.value.line
    decreases |source| - pos.current
  {
    if pos.current >= |source| then None
    else if source[pos.current] == '"' then Some(pos)
    else StringEnd(source, Pos(pos.current + 1, if source[pos.current] == '\n' then pos.line + 1 else pos.line))
  }

  /** `new_token`: the text from `start` to `cur` as the lexeme. */
  function TextToken(source: string, start: nat, cur: nat, kind: TokenType, literal: Option<Literal>, line: nat): (t: Token)
    requires start <= cur <= |source|
    ensures |t.lexeme| == cur - start && forall i :: 0 <= i < |t.lexeme| ==> t.lexeme[i] == source[start + i]
    ensures t.kind == kind && t.literal == literal && t.line == line
  {
    Token(kind, source[start..cur], literal, line)
  }

  /** `!`, `=`, `<`, `>`: the two-character kind `two` when `=` follows at `cur`, else the one-character kind `one`. */
  function OperatorToken(source: string, start: nat, cur: nat, one: TokenType, two: TokenType, line: nat): (s: Step)
    requires start < cur <= |source|
    ensures s.token.kind == (if CharAt(source, cur) == '=' then two else one)
    ensures s.next.current == start + |s.token.lexeme| && s.next.line == line
    ensures s.token.literal == None && s.token.line == line
  {
    if CharAt(source, cur) == '=' then
      Step(TextToken(source, start, cur + 1, two, None, line), Pos(cur + 1, line))
    else
      Step(TextToken(source, start, cur, one, None, line), Pos(cur, line))
  }

  /** `string`: the opening quote at `start` is consumed; the token runs to the closing quote. */
  function StringToken(source: string, start: nat, pos: Pos): (r: Option<Step>)
    requires start < pos.current <= |source|
    ensures r.None? <==> StringEnd(source, pos).None?
    ensures r.Some? ==> r.value.token.kind == String && r.value.next.current == start + |r.value.token.lexeme|
    ensures r.Some? ==> pos.current < r.value.next.current <= |source| && source[r.value.next.current - 1] == '"'
    ensures r.Some? ==> r.value.token.line == r.value.next.line >= pos.line
  {
    match StringEnd(source, pos)
    case None => None
    case Some(close) =>
      var cur := close.current + 1;
      Some(Step(Token(String, source[start..cur], Some(StringLit(source[start + 1..cur - 1])), close.line),
                Pos(cur, close.line)))
  }

  /** `number`: the first digit at `start` is consumed. */
  function NumberToken(source: string, start: nat, pos: Pos): (s: Step)
    requires start < pos.current <= |source|
    ensures s.token.kind == Number && s.token.literal == Some(NumberLit(s.token.lexeme))
    ensures pos.current <= s.next.current == start + |s.token.lexeme| <= |source| && s.next.line == pos.line
  {
    var cur := NumberEnd(source, pos.current);
    Step(TextToken(source, start, cur, Number, Some(NumberLit(source[start..cur])), pos.line), Pos(cur, pos.line))
  }

  /** `identifier`: the first letter at `start` is consumed; the word is looked up in `Keywords`. */
  function IdentifierToken(source: string, start: nat, pos: Pos): (s: Step)
    requires start < pos.current <= |source|
    ensures s.token.literal.Some? <==> s.token.kind == Identifier
    ensures s.token.literal.Some? ==> s.token.literal.value == IdentifierLit(s.token.lexeme)
    ensures pos.current <= s.next.current == start + |s.token.lexeme| <= |source| && s.next.line == pos.line
  {
    var cur := AlphaEnd(source, pos.current);
    var text := source[start..cur];
    var kind := KeywordKind(text);
    var literal := if kind == Identifier then Some(IdentifierLit(text)) else None;
    Step(TextToken(source, start, cur, kind, literal, pos.line), Pos(cur, pos.line))
  }

  /** The message of the `Error` token for a character no rule accepts. */
  function UnexpectedMessage(c: char): (m: string)
    ensures |m| == 25 && m[..22] == "unexpected character '" && m[22] == c && m[23..] == "' "
  {
    "unexpected character '" + [c] + "' "
  }

  /** `scan_token`: skip blanks, then read the token that starts at the next character. */
  function ScanToken(source: string, pos: Pos): (r: Option<Step>)
    requires pos.current <= |source|
    ensures r.Some? ==> pos.current < r.value.next.current <= |source| + 1
    ensures r.Some? ==> pos.line <= r.value.next.line && r.value.token.line == r.value.next.line
  {
    var ws := SkipWhitespace(source, pos);
    TokenAt(source, ws.current, ws.line)
  }

  /** The `match` of `scan_token`: the token whose first character is at `start`, on line `line`. */
  function TokenAt(source: string, start: nat, line: nat): (r: Option<Step>)
    requires start <= |source|
    ensures r.Some? ==> start < r.value.next.current <= |source| + 1
    ensures r.Some? ==> line <= r.value.next.line && r.value.token.line == r.value.next.line
  {
    var c := CharAt(source, start);
    var cur := start + 1;
    match c
    case '(' => Some(Step(TextToken(source, start, cur, LeftParen, None, line), Pos(cur, line)))
    case ')' => Some(Step(TextToken(source, start, cur, RightParen, None, line), Pos(cur, line)))
    case '{' => Some(Step(TextToken(source, start, cur, LeftBrace, None, line), Pos(cur, line)))
    case '}' => Some(Step(TextToken(source, start, cur, RightBrace, None, line), Pos(cur, line)))
    case ',' => Some(Step(TextToken(source, start, cur, Comma, None, line), Pos(cur, line)))
    case '.' => Some(Step(TextToken(source, start, cur, Dot, None, line), Pos(cur, line)))
    case '-' => Some(Step(TextToken(source, start, cur, Minus, None, line), Pos(cur, line)))
    case '+' => Some(Step(TextToken(source, start, cur, Plus, None, line), Pos(cur, line)))
    case ';' => Some(Step(TextToken(source, start, cur, Semicolon, None, line), Pos(cur, line)))
    case '*' => Some(Step(TextToken(source, start, cur, Star, None, line), Pos(cur, line)))
    case '!' => Some(OperatorToken(source, start, cur, Bang, BangEqual, line))
    case '=' => Some(OperatorToken(source, start, cur, Equal, EqualEqual, line))
    case '<' => Some(OperatorToken(source, start, cur, Less, LessEqual, line))
    case '>' => Some(OperatorToken(source, start, cur, Greater, GreaterEqual, line))
    case '/' => Some(Step(TextToken(source, start, cur, Slash, None, line), Pos(cur, line)))
    case '"' => StringToken(source, start, Pos(cur, line))
    case '\0' => Some(Step(Token(Eof, "", None, line), Pos(cur, line)))
    case _ =>
      if IsDigit(c) then Some(NumberToken(source, start, Pos(cur, line)))
      else if IsAlpha(c) then Some(IdentifierToken(source, start, Pos(cur, line)))
      else Some(Step(Token(Error, UnexpectedMessage(c), None, line), Pos(cur, line)))
  }

  /** `scan_tokens`: scan tokens while `current <= len`; `None` when some token never finishes. */
  function ScanFrom(source: string, pos: Pos): (r: Option<seq<Token>>)
    requires pos.current <= |source| + 1
    ensures r.Some? ==> |r.value| <= |source| + 1 - pos.current
    ensures r.Some? && pos.current <= |source| ==> |r.value| > 0
    decreases |source| + 1 - pos.current
  {
    if pos.current > |source| then Some([])
    else
      match ScanToken(source, pos)
      case None => None
      case Some(step) =>
        match ScanFrom(source, step.next)
        case None => None
        case Some(rest) => Some([step.token] + rest)
  }

  /** One round of the `scan_tokens` loop: a scan that finishes starts with a token that finishes, and that token heads the list. */
  lemma ScanFromStep(source: string, pos: Pos) returns (step: Step, rest: seq<Token>)
    requires pos.current <= |source|
    requires ScanFrom(source, pos).Some?
    ensures ScanToken(source, pos) == Some(step)
    ensures pos.current < step.next.current <= |source| + 1
    ensures ScanFrom(source, step.next) == Some(rest)
    ensures ScanFrom(source, pos).value == [step.token] + rest
  {
    step := ScanToken(source, pos).value;
    rest := ScanFrom(source, step.next).value;
  }

  /** The converse round: a token that finishes, followed by a scan that finishes, is a scan that finishes. */
  lemma ScanFromCons(source: string, pos: Pos, step: Step, rest: seq<Token>)
    requires pos.current <= |source|
    requires ScanToken(source, pos) == Some(step)
    requires ScanFrom(source, step.next) == Some(rest)
    ensures ScanFrom(source, pos) == Some([step.token] + rest)
  {
  }

  /** The whole scan of a source, from offset 0 on line 1. */
  function Scan(source: string): (r: Option<seq<Token>>)
    ensures r.Some? ==> 0 < |r.value| <= |source| + 1
  {
    ScanFrom(source, Pos(0, 1))
  }
}
