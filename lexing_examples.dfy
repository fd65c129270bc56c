/**
 * Small sources that show the scanner's edge cases: maximal munch,
 * keywords against identifiers that start with one, the dot in a number,
 * comments, characters no rule accepts, NUL, an unterminated string, and
 * a whole scan of a run of operators.
 * Each is derived from the per-token lemmas of module LexingProps.
 */
module LexingExamples {

  import opened Options
  import opened TokenTypes
  import opened Tokens
  import opened Lexing
  import opened LexingProps

  /** Maximal munch: in `<==` the first token is `<=`, ... */
  lemma MaximalMunchExample()
    ensures TokenAt("<==", 0, 1) == Some(Step(Token(LessEqual, "<=", None, 1), Pos(2, 1)))
  {
    ScanOperator("<==", 0, 1, Less);
  }

  /** ... and the `=` after it is a token of its own. */
  lemma MaximalMunchRestExample()
    ensures TokenAt("<==", 2, 1) == Some(Step(Token(Equal, "=", None, 1), Pos(3, 1)))
  {
    ScanOperator("<==", 2, 1, Equal);
  }

  /** A reserved word on its own is its keyword, with no literal. */
  lemma KeywordExample()
    ensures TokenAt("class", 0, 1) == Some(Step(Token(Class, "class", None, 1), Pos(5, 1)))
  {
    var src := "class";
    DispatchWord(src, 0, 1);
    assert AlphaEnd(src, 5) == 5;
    assert src[0..5] == src;
  }

  /** A word that merely starts with a keyword is an identifier: `classic` is not `class`. */
  lemma IdentifierExample()
    ensures TokenAt("classic", 0, 1) == Some(Step(Token(Identifier, "classic", Some(IdentifierLit("classic")), 1), Pos(7, 1)))
  {
    var src := "classic";
    DispatchWord(src, 0, 1);
    assert AlphaEnd(src, 7) == 7;
    assert src[0..7] == src;
    assert src !in Keywords;
  }

  /** A dot with no digit after it ends the number: `123.` starts with the number `123`. */
  lemma TrailingDotExample()
    ensures TokenAt("123.", 0, 1) == Some(Step(Token(Number, "123", Some(NumberLit("123")), 1), Pos(3, 1)))
  {
    var src := "123.";
    DispatchNumber(src, 0, 1);
    assert DigitsEnd(src, 3) == 3;
    assert NumberEnd(src, 1) == 3;
    assert src[0..3] == "123";
  }

  /** A dot followed by a digit belongs to the number: `1.5` is one token. */
  lemma FractionExample()
    ensures TokenAt("1.5", 0, 1) == Some(Step(Token(Number, "1.5", Some(NumberLit("1.5")), 1), Pos(3, 1)))
  {
    var src := "1.5";
    DispatchNumber(src, 0, 1);
    assert DigitsEnd(src, 1) == 1;
    assert DigitsEnd(src, 3) == 3;
    assert NumberEnd(src, 1) == 3;
    assert src[0..3] == src;
  }

  /** A comment runs to the end of its line, and the newline after it counts: the next token starts on line 2. */
  lemma CommentExample()
    ensures SkipWhitespace("// c\n+", Pos(0, 1)) == Pos(5, 2)
  {
    assert SkipComment("// c\n+", 0) == 4;
  }

  /** A character no rule accepts is an `Error` token that names it. */
  lemma UnexpectedExample()
    ensures TokenAt("@", 0, 1) == Some(Step(Token(Error, "unexpected character '@' ", None, 1), Pos(1, 1)))
  {
    ScanUnexpected("@", 0, 1);
    assert UnexpectedMessage('@') == "unexpected character '@' ";
  }

  /** A NUL character reads as the end of the source: an `Eof` token in the middle of `a\0b`. */
  lemma NulExample()
    ensures TokenAt("a\0b", 1, 1) == Some(Step(Token(Eof, "", None, 1), Pos(2, 1)))
  {
    ScanNul("a\0b", 1, 1);
  }

  /** A NUL inside a comment is stepped over by the comment loop: `//\0` scans to the one final `Eof`. */
  lemma NulInCommentExample()
    ensures Scan("//\0") == Some([Token(Eof, "", None, 1)])
  {
    var source := "//\0";
    var eof := Step(Token(Eof, "", None, 1), Pos(4, 1));
    assert SkipComment(source, 3) == 3;
    assert SkipComment(source, 0) == 3;
    SkipCommentStep(source, Pos(0, 1));
    ScanNul(source, 3, 1);
    assert ScanToken(source, Pos(0, 1)) == Some(eof);
    assert ScanFrom(source, Pos(4, 1)) == Some([]);
    ScanFromCons(source, Pos(0, 1), eof, []);
    assert [eof.token] + [] == [eof.token];
  }

  /** A NUL inside a string is stepped over by the string loop: `"\0"` scans to a string and the one final `Eof`. */
  lemma NulInStringExample()
    ensures Scan("\"\0\"") == Some([Token(String, "\"\0\"", Some(StringLit("\0")), 1), Token(Eof, "", None, 1)])
  {
    var source := "\"\0\"";
    var str := Step(Token(String, "\"\0\"", Some(StringLit("\0")), 1), Pos(3, 1));
    var eof := Step(Token(Eof, "", None, 1), Pos(4, 1));
    assert StringEnd(source, Pos(1, 1)) == Some(Pos(2, 1));
    assert source[0..3] == source && source[1..2] == "\0";
    assert TokenAt(source, 0, 1) == Some(str);
    assert ScanToken(source, Pos(0, 1)) == Some(str);
    ScanNul(source, 3, 1);
    assert ScanToken(source, Pos(3, 1)) == Some(eof);
    assert ScanFrom(source, Pos(4, 1)) == Some([]);
    ScanFromCons(source, Pos(3, 1), eof, []);
    assert [eof.token] + [] == [eof.token];
    ScanFromCons(source, Pos(0, 1), str, [eof.token]);
    assert [str.token] + [eof.token] == [str.token, eof.token];
    assert Scan(source) == ScanFrom(source, Pos(0, 1));
  }

  /** A string with no closing quote: the scanner never returns, so there is no token list. */
  lemma UnterminatedStringExample()
    ensures Scan("\"abc") == None
  {
    var src := "\"abc";
    assert SkipWhitespace(src, Pos(0, 1)) == Pos(0, 1);
    ScanStringLiteral(src, 0, 1);
    assert '"' !in src[1..];
  }

  /** The operator run inside the scanner tests (src/scanner.rs:265, 319): `=<><===` scans as `=`, `<`, `>`, `<=`, `==` and the closing `Eof`. */
  lemma OperatorRunExample()
    ensures Scan("=<><===") == Some([Token(Equal, "=", None, 1), Token(Less, "<", None, 1), Token(Greater, ">", None, 1),
                                    Token(LessEqual, "<=", None, 1), Token(EqualEqual, "==", None, 1), Token(Eof, "", None, 1)])
  {
    var src := "=<><===";
    OperatorRunAt0();
    OperatorRunAt1();
    OperatorRunAt2();
    OperatorRunAt3();
    OperatorRunAt5();
    OperatorRunAt7();
    var ts := [Token(Equal, "=", None, 1), Token(Less, "<", None, 1), Token(Greater, ">", None, 1),
               Token(LessEqual, "<=", None, 1), Token(EqualEqual, "==", None, 1), Token(Eof, "", None, 1)];
    ScanRun(src, [Pos(0, 1), Pos(1, 1), Pos(2, 1), Pos(3, 1), Pos(5, 1), Pos(7, 1), Pos(8, 1)], ts, 0);
    assert ts[0..] == ts;
  }

  /** In `=<><===`, the `=` at offset 0. */
  lemma OperatorRunAt0()
    ensures ScanToken("=<><===", Pos(0, 1)) == Some(Step(Token(Equal, "=", None, 1), Pos(1, 1)))
  {
    ScanOperator("=<><===", 0, 1, Equal);
    NoBlankBefore("=<><===", 0, 1);
  }

  /** In `=<><===`, the `<` at offset 1, which a `>` follows. */
  lemma OperatorRunAt1()
    ensures ScanToken("=<><===", Pos(1, 1)) == Some(Step(Token(Less, "<", None, 1), Pos(2, 1)))
  {
    ScanOperator("=<><===", 1, 1, Less);
    NoBlankBefore("=<><===", 1, 1);
  }

  /** In `=<><===`, the `>` at offset 2. */
  lemma OperatorRunAt2()
    ensures ScanToken("=<><===", Pos(2, 1)) == Some(Step(Token(Greater, ">", None, 1), Pos(3, 1)))
  {
    ScanOperator("=<><===", 2, 1, Greater);
    NoBlankBefore("=<><===", 2, 1);
  }

  /** In `=<><===`, the `<=` at offset 3. */
  lemma OperatorRunAt3()
    ensures ScanToken("=<><===", Pos(3, 1)) == Some(Step(Token(LessEqual, "<=", None, 1), Pos(5, 1)))
  {
    ScanOperator("=<><===", 3, 1, Less);
    NoBlankBefore("=<><===", 3, 1);
  }

  /** In `=<><===`, the `==` at offset 5. */
  lemma OperatorRunAt5()
    ensures ScanToken("=<><===", Pos(5, 1)) == Some(Step(Token(EqualEqual, "==", None, 1), Pos(7, 1)))
  {
    ScanOperator("=<><===", 5, 1, Equal);
    NoBlankBefore("=<><===", 5, 1);
  }

  /** In `=<><===`, the end of the source at offset 7 reads as `Eof`. */
  lemma OperatorRunAt7()
    ensures ScanToken("=<><===", Pos(7, 1)) == Some(Step(Token(Eof, "", None, 1), Pos(8, 1)))
  {
    ScanNul("=<><===", 7, 1);
    NoBlankBefore("=<><===", 7, 1);
  }

  /** From `at[k]` on, each token of `ts` is read where the previous one ended. */
  predicate ReadInTurn(source: string, at: seq<Pos>, ts: seq<Token>, k: nat)
    requires |at| == |ts| + 1 && k <= |ts|
  {
    forall i :: k <= i < |ts| ==> at[i].current <= |source| && ScanToken(source, at[i]) == Some(Step(ts[i], at[i + 1]))
  }

  /** Putting an element back in front of the slice after it gives the slice from it. */
  lemma ConsSlice(ts: seq<Token>, k: nat)
    requires k < |ts|
    ensures [ts[k]] + ts[k + 1..] == ts[k..]
  {
    assert forall i :: 0 <= i < |ts| - k ==> ([ts[k]] + ts[k + 1..])[i] == ts[k..][i];
  }

  /** A run of tokens, each read where the previous one ended and the last ending past the end of the source, is the scan from `at[k]`. */
  lemma {:induction false} ScanRun(source: string, at: seq<Pos>, ts: seq<Token>, k: nat)
    requires |at| == |ts| + 1 && k <= |ts| && at[|ts|].current == |source| + 1
    requires ReadInTurn(source, at, ts, k)
    ensures ScanFrom(source, at[k]) == Some(ts[k..])
    decreases |ts| - k
  {
    if k == |ts| {
      assert ts[k..] == [];
    } else {
      assert ReadInTurn(source, at, ts, k + 1);
      ScanRun(source, at, ts, k + 1);
      assert at[k].current <= |source| && ScanToken(source, at[k]) == Some(Step(ts[k], at[k + 1]));
      ScanFromCons(source, at[k], Step(ts[k], at[k + 1]), ts[k + 1..]);
      ConsSlice(ts, k);
    }
  }

  /** With no blank and no comment at the cursor, `scan_token` reads the token right there. */
  lemma NoBlankBefore(source: string, start: nat, line: nat)
    requires start <= |source|
    requires start < |source| ==> source[start] !in " \r\t\n/"
    ensures ScanToken(source, Pos(start, line)) == TokenAt(source, start, line)
  {
  }
}
