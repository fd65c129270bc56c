/** The token record and its `to_string` rendering. */
module Tokens {

  import opened Options
  import opened TokenTypes

  /** An immutable token: its kind, the source text it came from, an optional payload and its line. */
  datatype Token = Token(kind: TokenType, lexeme: string, literal: Option<Literal>, line: nat)

  /** `Token::new`: a record of the four arguments, unchanged. */
  function NewToken(kind: TokenType, lexeme: string, literal: Option<Literal>, line: nat): (t: Token)
    ensures t.kind == kind && t.lexeme == lexeme && t.literal == literal && t.line == line
  {
    Token(kind, lexeme, literal, line)
  }

  /** `to_string`: the kind's debug name, the lexeme and, when present, the literal's text, separated by single spaces. */
  function ToString(t: Token): (s: string)
    ensures |s| == |DebugName(t.kind)| + 1 + |t.lexeme| + (if t.literal.Some? then 1 + |LiteralDisplay(t.literal.value)| else 0)
  {
    if t.literal.Some? then
      DebugName(t.kind) + " " + t.lexeme + " " + LiteralDisplay(t.literal.value)
    else
      DebugName(t.kind) + " " + t.lexeme
  }

  /** The rendering with a literal extends the literal-free rendering of the same token by one space and the literal text. */
  lemma ToStringWithLiteral(t: Token, l: Literal)
    ensures ToString(t.(literal := Some(l))) == ToString(t.(literal := None)) + " " + LiteralDisplay(l)
  {
  }

  /** The rendering starts with the kind's debug name followed by a space. */
  lemma ToStringStartsWithKind(t: Token)
    ensures |ToString(t)| > |DebugName(t.kind)|
    ensures ToString(t)[..|DebugName(t.kind)|] == DebugName(t.kind)
    ensures ToString(t)[|DebugName(t.kind)|] == ' '
  {
  }

  /** Two tokens with the same rendering have the same kind: the kind is readable back from `to_string`. */
  lemma ToStringDeterminesKind(t1: Token, t2: Token)
    requires ToString(t1) == ToString(t2)
    ensures t1.kind == t2.kind
  {
    ToStringStartsWithKind(t1);
    ToStringStartsWithKind(t2);
    DebugNameInjective(t1.kind, t2.kind);
  }
}
