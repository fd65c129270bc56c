/**
 * The scanner as the object it is: a cursor over the source (`start`,
 * `current`, `line`) and a growing token list. Every method is proved to
 * leave the cursor and return the token that module Lexing defines.
 */
module Scanning {

  import opened Options
  import opened TokenTypes
  import opened Tokens
  import opened Lexing
  import opened LexingProps

  class Scanner {
    const source: string
    var tokens: seq<Token>
    var start: nat
    var current: nat
    var line: nat

    /** The cursor as a value. */
    function Cursor(): Pos
      reads this
    {
      Pos(current, line)
    }

    constructor (source: string)
      ensures this.source == source
      ensures tokens == [] && start == 0 && current == 0 && line == 1
    {
      this.source := source;
      tokens := [];
      start := 0;
      current := 0;
      line := 1;
    }

    /** Scans the rest of the source, appending every token to `tokens`. */
    method ScanTokens()
      requires current <= |source| + 1
      requires ScanFrom(source, Cursor()).Some?
      modifies this
      ensures tokens == old(tokens) + old(ScanFrom(source, Cursor())).value
      ensures current == |source| + 1
    {
      ghost var initial, all := tokens, ScanFrom(source, Cursor()).value;
      ghost var remaining := all;
      while current <= |source|
        invariant current <= |source| + 1
        invariant ScanFrom(source, Cursor()) == Some(remaining)
        invariant initial + all == tokens + remaining
        decreases |source| + 1 - current
      {
        ghost var step, rest := ScanFromStep(source, Cursor());
        var token := ScanToken();
        assert initial + all == (tokens + [token]) + rest;
        tokens := tokens + [token];
        remaining := rest;
      }
    }

    predicate IsAtEnd()
      reads this
      ensures IsAtEnd() <==> current >= |source|
      ensures IsAtEnd() ==> CharAt(source, current) == '\0'
      ensures !IsAtEnd() ==> CharAt(source, current) == source[current]
    {
      current >= |source|
    }

    /** Skips blanks, then reads one token starting at the next character. */
    method ScanToken() returns (token: Token)
      requires current <= |source|
      requires Lexing.ScanToken(source, Cursor()).Some?
      modifies this
      ensures Some(Step(token, Cursor())) == old(Lexing.ScanToken(source, Cursor()))
      ensures tokens == old(tokens)
    {
      SkipWhitespace();
      start := current;
      var c := Advance();
      match c {
        case '(' => token := NewToken(LeftParen, None);
        case ')' => token := NewToken(RightParen, None);
        case '{' => token := NewToken(LeftBrace, None);
        case '}' => token := NewToken(RightBrace, None);
        case ',' => token := NewToken(Comma, None);
        case '.' => token := NewToken(Dot, None);
        case '-' => token := NewToken(Minus, None);
        case '+' => token := NewToken(Plus, None);
        case ';' => token := NewToken(Semicolon, None);
        case '*' => token := NewToken(Star, None);
        case '!' =>
          var kind := Bang;
          if Peek() == '=' {
            current := current + 1;
            kind := BangEqual;
          }
          token := NewToken(kind, None);
        case '=' =>
          var kind := Equal;
          if Peek() == '=' {
            current := current + 1;
            kind := EqualEqual;
          }
          token := NewToken(kind, None);
        case '<' =>
          var kind := Less;
          if Peek() == '=' {
            current := current + 1;
            kind := LessEqual;
          }
          token := NewToken(kind, None);
        case '>' =>
          var kind := Greater;
          if Peek() == '=' {
            current := current + 1;
            kind := GreaterEqual;
          }
          token := NewToken(kind, None);
        case '/' => token := NewToken(Slash, None);
        case '"' => token := ScanString();
        case '\0' => token := NewEof();
        case _ =>
          if IsDigit(c) {
            token := ScanNumber();
          } else if IsAlpha(c) {
            token := ScanIdentifier();
          } else {
            token := ErrorToken(UnexpectedMessage(c));
          }
      }
    }

    /** Drops blanks and `//` comments, counting each newline passed. */
    method SkipWhitespace()
      requires current <= |source|
      modifies this`current, this`line
      ensures Cursor() == old(Lexing.SkipWhitespace(source, Cursor()))
    {
      ghost var goal := Lexing.SkipWhitespace(source, Cursor());
      while !IsAtEnd()
        invariant current <= |source|
        invariant Lexing.SkipWhitespace(source, Cursor()) == goal
        decreases |source| - current
      {
        match Peek() {
          case ' ' =>
            var _ := Advance();
          case '\r' =>
            var _ := Advance();
          case '\t' =>
            var _ := Advance();
          case '\n' =>
            line := line + 1;
            var _ := Advance();
          case '/' =>
            if PeekNext() == '/' {
              ghost var from, fromLine := current, line;
              while Peek() != '\n' && !IsAtEnd()
                invariant from <= current <= |source| && line == fromLine
                invariant SkipComment(source, current) == SkipComment(source, from)
                decreases |source| - current
              {
                var _ := Advance();
              }
              assert current == SkipComment(source, from);
            } else {
              return;
            }
          case _ =>
            return;
        }
      }
    }

    /** Consumes the rest of an alphabetic word and classifies it with `Keywords`. */
    method ScanIdentifier() returns (token: Token)
      requires start < current <= |source|
      modifies this`current
      ensures Step(token, Cursor()) == old(IdentifierToken(source, start, Cursor()))
    {
      ghost var goal := AlphaEnd(source, current);
      while IsAlpha(Peek())
        invariant current <= |source|
        invariant AlphaEnd(source, current) == goal
        decreases |source| - current
      {
        var _ := Advance();
      }
      var text := source[start..current];
      var kind := KeywordKind(text);
      if kind == Identifier {
        token := NewToken(kind, Some(IdentifierLit(text)));
      } else {
        token := NewToken(kind, None);
      }
    }

    /** Consumes the rest of a number: digits, a `.` only when a digit follows it, digits. */
    method ScanNumber() returns (token: Token)
      requires start < current <= |source|
      modifies this`current
      ensures Step(token, Cursor()) == old(NumberToken(source, start, Cursor()))
    {
      ghost var goal := NumberEnd(source, current);
      ghost var whole := DigitsEnd(source, current);
      while IsDigit(Peek())
        invariant current <= |source|
        invariant DigitsEnd(source, current) == whole
        decreases |source| - current
      {
        var _ := Advance();
      }
      if Peek() == '.' && IsDigit(PeekNext()) {
        var _ := Advance();
      }
      ghost var fraction := DigitsEnd(source, current);
      assert fraction == goal;
      while IsDigit(Peek())
        invariant current <= |source|
        invariant DigitsEnd(source, current) == fraction
        decreases |source| - current
      {
        var _ := Advance();
      }
      token := NewToken(Number, Some(NumberLit(source[start..current])));
    }

    /**
     * Consumes a string literal up to and including its closing quote. The
     * loop only stops on a quote, so a closing quote must exist, and the
     * "unterminated string" branch after the loop is never taken: the
     * assertion below proves the cursor is still inside the source there.
     */
    method ScanString() returns (token: Token)
      requires start < current <= |source|
      requires StringEnd(source, Cursor()).Some?
      modifies this`current, this`line
      ensures Some(Step(token, Cursor())) == old(StringToken(source, start, Cursor()))
    {
      ghost var close := StringEnd(source, Cursor()).value;
      while Peek() != '"' || IsAtEnd()
        invariant current <= close.current
        invariant StringEnd(source, Cursor()) == Some(close)
        decreases close.current - current
      {
        if Peek() == '\n' {
          line := line + 1;
        }
        var _ := Advance();
      }
      assert !IsAtEnd();
      var _ := Advance();
      var text := source[start + 1..current - 1];
      token := Token(String, source[start..current], Some(StringLit(text)), line);
    }

    /** Reads the character at the cursor (NUL at or past the end) and moves past it. */
    method Advance() returns (c: char)
      modifies this`current
      ensures c == CharAt(source, old(current)) && current == old(current) + 1
    {
      c := Peek();
      current := current + 1;
    }

    /** The token for the text from `start` to `current`. */
    function NewToken(kind: TokenType, literal: Option<Literal>): (t: Token)
      reads this
      requires start <= current <= |source|
      ensures t == TextToken(source, start, current, kind, literal, line)
    {
      Token(kind, source[start..current], literal, line)
    }

    function NewEof(): (t: Token)
      reads this
      ensures t == Token(Eof, "", None, line)
      ensures WellFormed(t)
    {
      Token(Eof, "", None, line)
    }

    function Peek(): (c: char)
      reads this
      ensures c == CharAt(source, current)
      ensures current < |source| ==> c == source[current]
      ensures current >= |source| ==> c == '\0'
    {
      CharAt(source, current)
    }

    function PeekNext(): (c: char)
      reads this
      ensures c == CharAt(source, current + 1)
      ensures current + 1 < |source| ==> c == source[current + 1]
      ensures current + 1 >= |source| ==> c == '\0'
    {
      CharAt(source, current + 1)
    }

    /** An `Error` token whose lexeme is the message. */
    function ErrorToken(message: string): (t: Token)
      reads this
      ensures t == Token(Error, message, None, line)
      ensures WellFormed(t)
    {
      Token(Error, message, None, line)
    }
  }
}
