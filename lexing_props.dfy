/**
 * Properties of the scanner: what each kind of token looks like, the
 * invariants every scanned token satisfies, the `Eof` sentinel, and that
 * blanks and comments produce no tokens.
 */
module LexingProps {

  import opened Options
  import opened TokenTypes
  import opened Tokens
  import opened Lexing

  /** The number of newline characters in `s`. */
  function Newlines(s: string): nat {
    if s == [] then 0 else (if s[0] == '\n' then 1 else 0) + Newlines(s[1..])
  }

  predicate AllAlpha(s: string) {
    forall i :: 0 <= i < |s| ==> IsAlpha(s[i])
  }

  predicate AllDigits(s: string) {
    forall i :: 0 <= i < |s| ==> IsDigit(s[i])
  }

  /** Number text: one or more digits, optionally a dot and one or more digits. */
  predicate IsNumberText(s: string) {
    (|s| > 0 && AllDigits(s)) ||
    (exists k :: 0 < k < |s| - 1 && s[k] == '.' && AllDigits(s[..k]) && AllDigits(s[k + 1..]))
  }

  /** The characters `scan_token` dispatches on before falling back to numbers, words and errors. */
  predicate IsDispatched(c: char) {
    c in "(){},.-+;*!=<>/\"\0"
  }

  // ---------------------------------------------------------------------
  // The keyword table

  /** Every keyword kind is in the table under its `Display` text, so an identifier spelt that way scans as the keyword. */
  lemma KeywordsRoundTrip(k: TokenType)
    ensures IsKeyword(k) ==> Display(k) in Keywords && Keywords[Display(k)] == k
    ensures IsKeyword(k) ==> KeywordKind(Display(k)) == k
  {
    if k in {And, Class, Else, False} {
      KindsRoundTripAndToFalse(k);
    } else if k in {Fun, For, If, Nil} {
      KindsRoundTripFunToNil(k);
    } else if k in {Or, Print, Return, Super} {
      KindsRoundTripOrToSuper(k);
    } else if k in {This, True, Var, While} {
      KindsRoundTripThisToWhile(k);
    }
  }

  /** Every text in the table is the `Display` text of the keyword kind it maps to. */
  lemma KeywordsDisplay(w: string)
    requires w in Keywords
    ensures IsKeyword(Keywords[w]) && Display(Keywords[w]) == w
  {
    if w in {"and", "class", "else", "false"} {
      WordsDisplayAndToFalse(w);
    } else if w in {"fun", "for", "if", "nil"} {
      WordsDisplayFunToNil(w);
    } else if w in {"or", "print", "return", "super"} {
      WordsDisplayOrToSuper(w);
    } else {
      WordsDisplayThisToWhile(w);
    }
  }

  // The two lemmas above, four keywords at a time.

  lemma KindsRoundTripAndToFalse(k: TokenType)
    requires k in {And, Class, Else, False}
    ensures Display(k) in Keywords && Keywords[Display(k)] == k
  {
  }

  lemma KindsRoundTripFunToNil(k: TokenType)
    requires k in {Fun, For, If, Nil}
    ensures Display(k) in Keywords && Keywords[Display(k)] == k
  {
  }

  lemma KindsRoundTripOrToSuper(k: TokenType)
    requires k in {Or, Print, Return, Super}
    ensures Display(k) in Keywords && Keywords[Display(k)] == k
  {
  }

  lemma KindsRoundTripThisToWhile(k: TokenType)
    requires k in {This, True, Var, While}
    ensures Display(k) in Keywords && Keywords[Display(k)] == k
  {
  }

  lemma WordsDisplayAndToFalse(w: string)
    requires w in {"and", "class", "else", "false"}
    ensures w in Keywords && IsKeyword(Keywords[w]) && Display(Keywords[w]) == w
  {
  }

  lemma WordsDisplayFunToNil(w: string)
    requires w in {"fun", "for", "if", "nil"}
    ensures w in Keywords && IsKeyword(Keywords[w]) && Display(Keywords[w]) == w
  {
  }

  lemma WordsDisplayOrToSuper(w: string)
    requires w in {"or", "print", "return", "super"}
    ensures w in Keywords && IsKeyword(Keywords[w]) && Display(Keywords[w]) == w
  {
  }

  lemma WordsDisplayThisToWhile(w: string)
    requires w in {"this", "true", "var", "while"}
    ensures w in Keywords && IsKeyword(Keywords[w]) && Display(Keywords[w]) == w
  {
  }

  // ---------------------------------------------------------------------
  // The cursor loops

  lemma {:induction false} NewlinesAppend(a: string, b: string)
    ensures Newlines(a + b) == Newlines(a) + Newlines(b)
  {
    if a == [] {
      assert a + b == b;
    } else {
      assert (a + b)[1..] == a[1..] + b;
      NewlinesAppend(a[1..], b);
    }
  }

  lemma {:induction false} AlphaEndFacts(source: string, cur: nat)
    requires cur <= |source|
    ensures AllAlpha(source[cur..AlphaEnd(source, cur)])
    ensures !IsAlpha(CharAt(source, AlphaEnd(source, cur)))
    decreases |source| - cur
  {
    if IsAlpha(CharAt(source, cur)) {
      AlphaEndFacts(source, cur + 1);
      assert source[cur..AlphaEnd(source, cur)] == [source[cur]] + source[cur + 1..AlphaEnd(source, cur)];
    }
  }

  lemma {:induction false} DigitsEndFacts(source: string, cur: nat)
    requires cur <= |source|
    ensures AllDigits(source[cur..DigitsEnd(source, cur)])
    ensures !IsDigit(CharAt(source, DigitsEnd(source, cur)))
    decreases |source| - cur
  {
    if IsDigit(CharAt(source, cur)) {
      DigitsEndFacts(source, cur + 1);
      assert source[cur..DigitsEnd(source, cur)] == [source[cur]] + source[cur + 1..DigitsEnd(source, cur)];
    }
  }

  /** The string loop stops on the first quote and counts exactly the newlines it passes. */
  lemma {:induction false} StringEndFacts(source: string, pos: Pos)
    requires StringEnd(source, pos).Some?
    ensures var close := StringEnd(source, pos).value;
      && '"' !in source[pos.current..close.current]
      && close.line == pos.line + Newlines(source[pos.current..close.current])
    decreases |source| - pos.current
  {
    var close := StringEnd(source, pos).value;
    if source[pos.current] != '"' {
      var next := Pos(pos.current + 1, if source[pos.current] == '\n' then pos.line + 1 else pos.line);
      StringEndFacts(source, next);
      assert source[pos.current..close.current] == [source[pos.current]] + source[pos.current + 1..close.current];
    }
  }

  /** With no quote at or after `pos`, the string loop never stops. */
  lemma {:induction false} StringEndHangs(source: string, pos: Pos)
    requires pos.current <= |source|
    requires '"' !in source[pos.current..]
    ensures StringEnd(source, pos).None?
    decreases |source| - pos.current
  {
    if pos.current < |source| {
      assert source[pos.current] == source[pos.current..][0];
      assert source[pos.current + 1..] == source[pos.current..][1..];
      StringEndHangs(source, Pos(pos.current + 1, if source[pos.current] == '\n' then pos.line + 1 else pos.line));
    }
  }

  /** The comment loop passes no newline: it stops on the first one. */
  lemma {:induction false} SkipCommentFacts(source: string, cur: nat)
    requires cur <= |source|
    ensures Newlines(source[cur..SkipComment(source, cur)]) == 0
    decreases |source| - cur
  {
    var e := SkipComment(source, cur);
    if e > cur {
      SkipCommentFacts(source, cur + 1);
      assert source[cur..e] == [source[cur]] + source[cur + 1..e];
    } else {
      assert source[cur..e] == [];
    }
  }

  /** Where `skip_whitespace` stops: the end of the source, or a character that is neither a blank nor the start of `//`. */
  predicate SkipStop(source: string, i: nat)
    requires i <= |source|
  {
    i == |source| || (source[i] !in " \r\t\n" && !(source[i] == '/' && CharAt(source, i + 1) == '/'))
  }

  /**
   * `skip_whitespace` adds to the line exactly the newlines it skips, and
   * stops where `SkipStop` holds.
   */
  lemma {:induction false} SkipWhitespaceFacts(source: string, pos: Pos)
    requires pos.current <= |source|
    ensures var r := SkipWhitespace(source, pos);
      r.line == pos.line + Newlines(source[pos.current..r.current]) && SkipStop(source, r.current)
    decreases |source| - pos.current
  {
    var r := SkipWhitespace(source, pos);
    if pos.current < |source| {
      var c := source[pos.current];
      if c == ' ' || c == '\r' || c == '\t' || c == '\n' {
        var next := Pos(pos.current + 1, if c == '\n' then pos.line + 1 else pos.line);
        assert r == SkipWhitespace(source, next);
        SkipWhitespaceFacts(source, next);
        NewlinesFront(source, pos.current, r.current);
      } else if c == '/' && CharAt(source, pos.current + 1) == '/' {
        var e := SkipComment(source, pos.current);
        assert r == SkipWhitespace(source, Pos(e, pos.line));
        SkipCommentFacts(source, pos.current);
        SkipWhitespaceFacts(source, Pos(e, pos.line));
        NewlinesSplit(source, pos.current, e, r.current);
      } else {
        assert source[pos.current..r.current] == [];
      }
    } else {
      assert source[pos.current..r.current] == [];
    }
  }

  /** The newlines of `source[i..j]`: its first character's, then the rest's. */
  lemma NewlinesFront(source: string, i: nat, j: nat)
    requires i < j <= |source|
    ensures Newlines(source[i..j]) == (if source[i] == '\n' then 1 else 0) + Newlines(source[i + 1..j])
  {
    assert source[i..j][1..] == source[i + 1..j];
  }

  /** The newlines of `source[i..j]`, split at `m`. */
  lemma NewlinesSplit(source: string, i: nat, m: nat, j: nat)
    requires i <= m <= j <= |source|
    ensures Newlines(source[i..j]) == Newlines(source[i..m]) + Newlines(source[m..j])
  {
    assert source[i..j] == source[i..m] + source[m..j];
    NewlinesAppend(source[i..m], source[m..j]);
  }

  /** Position `k` lies in a line comment begun at or after `from`: a `//` at some `c` in `from..k`, with no newline from `c` to `k`. */
  predicate InComment(source: string, from: nat, k: nat)
    requires k < |source|
  {
    exists c :: from <= c <= k && source[c] == '/' && CharAt(source, c + 1) == '/' && '\n' !in source[c..k + 1]
  }

  /** Everything in `source[from..to]` is a blank, a newline or part of a line comment begun in it. */
  predicate SkippedTrivia(source: string, from: nat, to: nat)
    requires from <= to <= |source|
  {
    forall k :: from <= k < to ==> source[k] in " \r\t\n" || InComment(source, from, k)
  }

  /** Short of the end of the source, every `//` in `source[from..to]` is followed by a newline before `to`. */
  predicate CommentsClosed(source: string, from: nat, to: nat)
    requires from <= to <= |source|
  {
    to < |source| ==>
      forall c :: from <= c < to && source[c] == '/' && CharAt(source, c + 1) == '/' ==> '\n' in source[c..to]
  }

  /**
   * `skip_whitespace` stops at the FIRST token start: everything it skips is
   * a blank, a newline or part of a line comment, and where it stops, when
   * that is not the end of the source, every comment it passed has ended
   * with a newline. Where no blank and no `//` is under the cursor it does
   * not move.
   */
  lemma {:induction false} SkipWhitespaceFirst(source: string, pos: Pos)
    requires pos.current <= |source|
    ensures var r := SkipWhitespace(source, pos);
      SkippedTrivia(source, pos.current, r.current) && CommentsClosed(source, pos.current, r.current)
    ensures SkipStop(source, pos.current) ==> SkipWhitespace(source, pos) == pos
    decreases |source| - pos.current
  {
    var r := SkipWhitespace(source, pos);
    if pos.current < |source| {
      var c := source[pos.current];
      if c == ' ' || c == '\r' || c == '\t' || c == '\n' {
        var next := Pos(pos.current + 1, if c == '\n' then pos.line + 1 else pos.line);
        SkipBlankStep(source, pos);
        SkipWhitespaceFirst(source, next);
        TriviaBlank(source, pos.current, r.current);
      } else if c == '/' && CharAt(source, pos.current + 1) == '/' {
        var e := SkipComment(source, pos.current);
        SkipCommentStep(source, pos);
        SkipWhitespaceFirst(source, Pos(e, pos.line));
        SkipPastComment(source, pos);
        TriviaComment(source, pos.current, r.current);
      } else {
        assert r == pos;
      }
    }
  }

  /**
   * The converse: a stop that `SkipStop` allows, reached over skipped text
   * with every comment closed, is where `skip_whitespace` stops. With
   * `SkipWhitespaceFirst`, this pins the result as the first token start.
   */
  lemma {:induction false} SkipWhitespaceOnly(source: string, pos: Pos, j: nat)
    requires pos.current <= j <= |source| && SkipStop(source, j)
    requires SkippedTrivia(source, pos.current, j) && CommentsClosed(source, pos.current, j)
    ensures SkipWhitespace(source, pos).current == j
    decreases |source| - pos.current, 1
  {
    if pos.current < j {
      TriviaHead(source, pos.current, j);
      if source[pos.current] in " \r\t\n" {
        SkipBlankOnly(source, pos, j);
      } else {
        SkipCommentOnly(source, pos, j);
      }
    }
  }

  /** `SkipWhitespaceOnly` past a leading blank or newline. */
  lemma {:induction false} SkipBlankOnly(source: string, pos: Pos, j: nat)
    requires pos.current < j <= |source| && SkipStop(source, j) && source[pos.current] in " \r\t\n"
    requires SkippedTrivia(source, pos.current, j) && CommentsClosed(source, pos.current, j)
    ensures SkipWhitespace(source, pos).current == j
    decreases |source| - pos.current, 0
  {
    var c := source[pos.current];
    var next := Pos(pos.current + 1, if c == '\n' then pos.line + 1 else pos.line);
    TriviaTailBlank(source, pos.current, j);
    SkipBlankStep(source, pos);
    SkipWhitespaceOnly(source, next, j);
  }

  /** `SkipWhitespaceOnly` past a leading line comment. */
  lemma {:induction false} SkipCommentOnly(source: string, pos: Pos, j: nat)
    requires pos.current < j <= |source| && SkipStop(source, j)
    requires source[pos.current] == '/' && CharAt(source, pos.current + 1) == '/'
    requires SkippedTrivia(source, pos.current, j) && CommentsClosed(source, pos.current, j)
    ensures SkipWhitespace(source, pos).current == j
    decreases |source| - pos.current, 0
  {
    var e := SkipComment(source, pos.current);
    TriviaTailComment(source, pos.current, j);
    SkipCommentStep(source, pos);
    SkipWhitespaceOnly(source, Pos(e, pos.line), j);
  }

  /** One step of `skip_whitespace` over a blank or a newline. */
  lemma SkipBlankStep(source: string, pos: Pos)
    requires pos.current < |source| && source[pos.current] in " \r\t\n"
    ensures SkipWhitespace(source, pos)
      == SkipWhitespace(source, Pos(pos.current + 1, if source[pos.current] == '\n' then pos.line + 1 else pos.line))
  {
  }

  /** After a line comment, `skip_whitespace` stops short of the end only past the newline that ends the comment. */
  lemma SkipPastComment(source: string, pos: Pos)
    requires pos.current < |source| && source[pos.current] == '/' && CharAt(source, pos.current + 1) == '/'
    ensures SkipWhitespace(source, pos).current < |source| ==> SkipComment(source, pos.current) < SkipWhitespace(source, pos).current
  {
    var e := SkipComment(source, pos.current);
    SkipCommentStep(source, pos);
    if e < |source| {
      SkipBlankStep(source, Pos(e, pos.line));
    }
  }

  /** One step of `skip_whitespace` over a line comment. */
  lemma SkipCommentStep(source: string, pos: Pos)
    requires pos.current < |source| && source[pos.current] == '/' && CharAt(source, pos.current + 1) == '/'
    ensures SkipWhitespace(source, pos) == SkipWhitespace(source, Pos(SkipComment(source, pos.current), pos.line))
  {
  }

  /** Skipped text starts with a blank, a newline or `//`. */
  lemma TriviaHead(source: string, i: nat, j: nat)
    requires i < j <= |source| && SkippedTrivia(source, i, j)
    ensures source[i] in " \r\t\n" || (source[i] == '/' && CharAt(source, i + 1) == '/')
  {
    if source[i] !in " \r\t\n" {
      assert InComment(source, i, i);
    }
  }

  /** Skipped text after a leading blank is skipped text. */
  lemma TriviaTailBlank(source: string, i: nat, j: nat)
    requires i < j <= |source| && source[i] in " \r\t\n"
    requires SkippedTrivia(source, i, j) && CommentsClosed(source, i, j)
    ensures SkippedTrivia(source, i + 1, j) && CommentsClosed(source, i + 1, j)
  {
    forall k | i + 1 <= k < j && source[k] !in " \r\t\n"
      ensures InComment(source, i + 1, k)
    {
      var c :| i <= c <= k && source[c] == '/' && CharAt(source, c + 1) == '/' && '\n' !in source[c..k + 1];
      assert c != i;
    }
  }

  /**
   * Skipped text after a leading comment, ending at a stop: the stop is not
   * inside the comment, and what follows the comment is skipped text.
   */
  lemma TriviaTailComment(source: string, i: nat, j: nat)
    requires i < j <= |source| && source[i] == '/' && CharAt(source, i + 1) == '/' && SkipStop(source, j)
    requires SkippedTrivia(source, i, j) && CommentsClosed(source, i, j)
    ensures SkipComment(source, i) <= j
    ensures SkippedTrivia(source, SkipComment(source, i), j) && CommentsClosed(source, SkipComment(source, i), j)
  {
    var e := SkipComment(source, i);
    SkipCommentNoNewline(source, i);
    forall k | e <= k < j && source[k] !in " \r\t\n"
      ensures InComment(source, e, k)
    {
      var c :| i <= c <= k && source[c] == '/' && CharAt(source, c + 1) == '/' && '\n' !in source[c..k + 1];
      NewlineEndsComment(source, c, e, k);
    }
  }

  /** A stretch with no newline that reaches past a newline at `e` starts after it. */
  lemma NewlineEndsComment(source: string, c: nat, e: nat, k: nat)
    requires c <= k < |source| && e <= k && source[e] == '\n'
    requires '\n' !in source[c..k + 1]
    ensures e < c
  {
  }

  /** A blank or newline in front of skipped text is skipped text. */
  lemma TriviaBlank(source: string, i: nat, to: nat)
    requires i < to <= |source| && source[i] in " \r\t\n"
    requires SkippedTrivia(source, i + 1, to) && CommentsClosed(source, i + 1, to)
    ensures SkippedTrivia(source, i, to) && CommentsClosed(source, i, to)
  {
    forall k | i <= k < to
      ensures source[k] in " \r\t\n" || InComment(source, i, k)
    {
      if k > i && source[k] !in " \r\t\n" {
        InCommentWiden(source, i, i + 1, k);
      }
    }
    if to < |source| {
      forall c | i <= c < to && source[c] == '/' && CharAt(source, c + 1) == '/'
        ensures '\n' in source[c..to]
      {
        assert c != i;
      }
    }
  }

  /**
   * A line comment at `i`, run to where the comment loop stops, in front of
   * skipped text is skipped text; the comment is closed when the newline
   * that ends it comes before `to`.
   */
  lemma TriviaComment(source: string, i: nat, to: nat)
    requires i < |source| && source[i] == '/' && CharAt(source, i + 1) == '/'
    requires SkipComment(source, i) <= to <= |source|
    requires to < |source| ==> SkipComment(source, i) < to
    requires SkippedTrivia(source, SkipComment(source, i), to) && CommentsClosed(source, SkipComment(source, i), to)
    ensures SkippedTrivia(source, i, to) && CommentsClosed(source, i, to)
  {
    var e := SkipComment(source, i);
    SkipCommentNoNewline(source, i);
    forall k | i <= k < to && source[k] !in " \r\t\n"
      ensures InComment(source, i, k)
    {
      if k < e {
        var text := source[i..k + 1];
        forall j | 0 <= j < |text|
          ensures text[j] != '\n'
        {
          assert text[j] == source[i + j];
        }
      } else {
        InCommentWiden(source, i, e, k);
      }
    }
    if to < |source| {
      forall b | i <= b < e
        ensures '\n' in source[b..to]
      {
        assert source[b..to][e - b] == source[e];
      }
    }
  }

  /** A comment begun at or after `from2` is begun at or after any `from` before it. */
  lemma InCommentWiden(source: string, from: nat, from2: nat, k: nat)
    requires from <= from2 <= k < |source|
    requires InComment(source, from2, k)
    ensures InComment(source, from, k)
  {
    var c :| from2 <= c <= k && source[c] == '/' && CharAt(source, c + 1) == '/' && '\n' !in source[c..k + 1];
  }

  /** The comment loop passes no newline. */
  lemma {:induction false} SkipCommentNoNewline(source: string, cur: nat)
    requires cur <= |source|
    ensures forall i :: cur <= i < SkipComment(source, cur) ==> source[i] != '\n'
    decreases |source| - cur
  {
    if SkipComment(source, cur) > cur {
      SkipCommentNoNewline(source, cur + 1);
    }
  }

  // ---------------------------------------------------------------------
  // One token, by the character that starts it

  /** A single-character punctuation token has that character as its lexeme, which is its kind's `Display` text. */
  lemma ScanPunctuation(source: string, start: nat, line: nat, k: TokenType)
    requires start < |source| && [source[start]] == Display(k)
    requires IsSingleChar(k)
    ensures TokenAt(source, start, line) == Some(Step(Token(k, Display(k), None, line), Pos(start + 1, line)))
  {
    assert source[start..start + 1] == [source[start]];
  }

  /**
   * Maximal munch: `!`, `=`, `<` or `>` followed by `=` is one two-character
   * token; otherwise the one-character token. Either way the lexeme is the
   * kind's `Display` text.
   */
  lemma ScanOperator(source: string, start: nat, line: nat, one: TokenType)
    requires start < |source| && [source[start]] == Display(one)
    requires IsOneChar(one)
    ensures
      if CharAt(source, start + 1) == '=' then
        TokenAt(source, start, line) == Some(Step(Token(WithEqual(one), Display(WithEqual(one)), None, line), Pos(start + 2, line)))
      else
        TokenAt(source, start, line) == Some(Step(Token(one, Display(one), None, line), Pos(start + 1, line)))
  {
    DispatchOperator(source, start, line, one);
    OperatorTokenFacts(source, start, one, line);
  }

  lemma DispatchOperator(source: string, start: nat, line: nat, one: TokenType)
    requires start < |source| && [source[start]] == Display(one)
    requires IsOneChar(one)
    ensures TokenAt(source, start, line) == Some(OperatorToken(source, start, start + 1, one, WithEqual(one), line))
  {
    match one
    case Bang => assert source[start] == '!';
    case Equal => assert source[start] == '=';
    case Less => assert source[start] == '<';
    case Greater => assert source[start] == '>';
  }

  lemma OperatorTokenFacts(source: string, start: nat, one: TokenType, line: nat)
    requires start < |source| && [source[start]] == Display(one)
    requires IsOneChar(one)
    ensures
      if CharAt(source, start + 1) == '=' then
        OperatorToken(source, start, start + 1, one, WithEqual(one), line) == Step(Token(WithEqual(one), Display(WithEqual(one)), None, line), Pos(start + 2, line))
      else
        OperatorToken(source, start, start + 1, one, WithEqual(one), line) == Step(Token(one, Display(one), None, line), Pos(start + 1, line))
  {
    assert source[start..start + 1] == [source[start]];
    if CharAt(source, start + 1) == '=' {
      assert source[start..start + 2] == [source[start], '='];
    }
  }

  /**
   * A word is consumed whole: its lexeme is the maximal run of letters. A
   * reserved word becomes its keyword with no literal; any other word is an
   * `Identifier` whose literal is the word.
   */
  lemma ScanWord(source: string, start: nat, line: nat)
    requires start < |source| && IsAlpha(source[start])
    ensures TokenAt(source, start, line).Some?
    ensures var step := TokenAt(source, start, line).value;
      var word := step.token.lexeme;
      && step.next == Pos(start + |word|, line)
      && |word| > 0 && AllAlpha(word) && !IsAlpha(CharAt(source, step.next.current))
      && word == source[start..step.next.current]
      && step.token.line == line
      && (word in Keywords ==> step.token.kind == Keywords[word] && step.token.literal == None)
      && (word !in Keywords ==> step.token.kind == Identifier && step.token.literal == Some(IdentifierLit(word)))
  {
    DispatchWord(source, start, line);
    IdentifierTokenFacts(source, start, line);
  }

  lemma DispatchWord(source: string, start: nat, line: nat)
    requires start < |source| && IsAlpha(source[start])
    ensures TokenAt(source, start, line) == Some(IdentifierToken(source, start, Pos(start + 1, line)))
  {
  }

  lemma IdentifierTokenFacts(source: string, start: nat, line: nat)
    requires start < |source| && IsAlpha(source[start])
    ensures var step := IdentifierToken(source, start, Pos(start + 1, line));
      var word := step.token.lexeme;
      && step.next == Pos(start + |word|, line)
      && |word| > 0 && AllAlpha(word) && !IsAlpha(CharAt(source, step.next.current))
      && word == source[start..step.next.current]
      && step.token.line == line
      && (word in Keywords ==> step.token.kind == Keywords[word] && step.token.literal == None)
      && (word !in Keywords ==> step.token.kind == Identifier && step.token.literal == Some(IdentifierLit(word)))
  {
    AlphaEndFacts(source, start + 1);
    var e := AlphaEnd(source, start + 1);
    assert source[start..e] == [source[start]] + source[start + 1..e];
  }

  lemma DispatchNumber(source: string, start: nat, line: nat)
    requires start < |source| && IsDigit(source[start])
    ensures TokenAt(source, start, line) == Some(NumberToken(source, start, Pos(start + 1, line)))
  {
  }

  lemma NumberTokenFacts(source: string, start: nat, line: nat)
    requires start < |source| && IsDigit(source[start])
    ensures var step := NumberToken(source, start, Pos(start + 1, line));
      var text := step.token.lexeme;
      && step.next == Pos(start + |text|, line)
      && text == source[start..step.next.current]
      && IsNumberText(text)
      && step.token == Token(Number, text, Some(NumberLit(text)), line)
      && !IsDigit(CharAt(source, step.next.current))
      && ('.' !in text ==> !(CharAt(source, step.next.current) == '.' && IsDigit(CharAt(source, step.next.current + 1))))
  {
    var whole := DigitsEnd(source, start + 1);
    LeadingDigits(source, start);
    if CharAt(source, whole) == '.' && IsDigit(CharAt(source, whole + 1)) {
      FractionDigits(source, start, whole);
    } else {
      var text := source[start..whole];
      assert '.' !in text by {
        assert forall i :: 0 <= i < |text| ==> IsDigit(text[i]);
      }
    }
  }

  /** The digits before any dot: at least one, since the first is at `start`. */
  lemma LeadingDigits(source: string, start: nat)
    requires start < |source| && IsDigit(source[start])
    ensures var whole := DigitsEnd(source, start + 1);
      && AllDigits(source[start..whole]) && !IsDigit(CharAt(source, whole))
  {
    var whole := DigitsEnd(source, start + 1);
    DigitsEndFacts(source, start + 1);
    assert source[start..whole] == [source[start]] + source[start + 1..whole];
  }

  /** With a dot and a digit after the leading digits, the number runs on through the second run of digits. */
  lemma FractionDigits(source: string, start: nat, whole: nat)
    requires start < whole < |source| && AllDigits(source[start..whole])
    requires source[whole] == '.' && IsDigit(CharAt(source, whole + 1))
    ensures var e := DigitsEnd(source, whole + 1);
      && IsNumberText(source[start..e]) && '.' in source[start..e] && !IsDigit(CharAt(source, e))
  {
    var e := DigitsEnd(source, whole + 1);
    DigitsEndFacts(source, whole + 1);
    var text := source[start..e];
    var k := whole - start;
    assert text[..k] == source[start..whole];
    assert text[k + 1..] == source[whole + 1..e];
    assert text[k] == '.';
  }

  /**
   * A number's lexeme is digits, optionally a dot and digits; a dot is taken
   * only when a digit follows it. The literal carries the lexeme.
   */
  lemma ScanNumber(source: string, start: nat, line: nat)
    requires start < |source| && IsDigit(source[start])
    ensures TokenAt(source, start, line).Some?
    ensures var step := TokenAt(source, start, line).value;
      var text := step.token.lexeme;
      && step.next == Pos(start + |text|, line)
      && text == source[start..step.next.current]
      && IsNumberText(text)
      && step.token == Token(Number, text, Some(NumberLit(text)), line)
      && !IsDigit(CharAt(source, step.next.current))
      && ('.' !in text ==> !(CharAt(source, step.next.current) == '.' && IsDigit(CharAt(source, step.next.current + 1))))
  {
    DispatchNumber(source, start, line);
    NumberTokenFacts(source, start, line);
  }

  lemma DispatchString(source: string, start: nat, line: nat)
    requires start < |source| && source[start] == '"'
    ensures TokenAt(source, start, line) == StringToken(source, start, Pos(start + 1, line))
  {
  }

  lemma StringTokenFacts(source: string, start: nat, line: nat)
    requires start < |source| && source[start] == '"'
    ensures StringToken(source, start, Pos(start + 1, line)).None? <==> '"' !in source[start + 1..]
    ensures StringToken(source, start, Pos(start + 1, line)).Some? ==>
      var step := StringToken(source, start, Pos(start + 1, line)).value;
      && step.token.literal.Some? && step.token.literal.value.StringLit?
      && var text := step.token.literal.value.text;
        && '"' !in text
        && step.token == Token(String, "\"" + text + "\"", Some(StringLit(text)), line + Newlines(text))
        && step.next == Pos(start + |text| + 2, line + Newlines(text))
        && text == source[start + 1..start + 1 + |text|]
  {
    var from := Pos(start + 1, line);
    if '"' !in source[start + 1..] {
      StringEndHangs(source, from);
    } else {
      if StringEnd(source, from).None? {
        StringEndNoneMeansNoQuote(source, from);
      } else {
        StringEndFacts(source, from);
        var close := StringEnd(source, from).value;
        var text := source[start + 1..close.current];
        assert source[start..close.current + 1] == "\"" + text + "\"";
      }
    }
  }

  /**
   * A closed string's lexeme is the text between the quotes with both quotes
   * around it; the literal is that text, which holds no quote, and the line
   * has advanced by the newlines inside it. An unclosed string never returns.
   */
  lemma ScanStringLiteral(source: string, start: nat, line: nat)
    requires start < |source| && source[start] == '"'
    ensures TokenAt(source, start, line).None? <==> '"' !in source[start + 1..]
    ensures TokenAt(source, start, line).Some? ==>
      var step := TokenAt(source, start, line).value;
      && step.token.literal.Some? && step.token.literal.value.StringLit?
      && var text := step.token.literal.value.text;
        && '"' !in text
        && step.token == Token(String, "\"" + text + "\"", Some(StringLit(text)), line + Newlines(text))
        && step.next == Pos(start + |text| + 2, line + Newlines(text))
        && text == source[start + 1..start + 1 + |text|]
  {
    DispatchString(source, start, line);
    StringTokenFacts(source, start, line);
  }

  lemma {:induction false} StringEndNoneMeansNoQuote(source: string, pos: Pos)
    requires pos.current <= |source|
    requires StringEnd(source, pos).None?
    ensures '"' !in source[pos.current..]
    decreases |source| - pos.current
  {
    if pos.current < |source| {
      StringEndNoneMeansNoQuote(source, Pos(pos.current + 1, if source[pos.current] == '\n' then pos.line + 1 else pos.line));
      assert source[pos.current..] == [source[pos.current]] + source[pos.current + 1..];
    }
  }

  /** Any other character is an `Error` token naming it, and scanning goes on after it. */
  lemma ScanUnexpected(source: string, start: nat, line: nat)
    requires start < |source|
    requires !IsDispatched(source[start]) && !IsDigit(source[start]) && !IsAlpha(source[start])
    ensures TokenAt(source, start, line) == Some(Step(Token(Error, UnexpectedMessage(source[start]), None, line), Pos(start + 1, line)))
  {
  }

  /** At the end of the source, and at a NUL character, the token is `Eof` with an empty lexeme. */
  lemma ScanNul(source: string, start: nat, line: nat)
    requires start <= |source| && CharAt(source, start) == '\0'
    ensures TokenAt(source, start, line) == Some(Step(Token(Eof, "", None, line), Pos(start + 1, line)))
  {
  }

  // ---------------------------------------------------------------------
  // Every token

  /**
   * The shape every scanned token has: a literal exactly for `String`,
   * `Number` and `Identifier`, carrying the text those tokens stand for, and
   * the kind's `Display` text as lexeme for punctuation, operators and
   * keywords.
   */
  predicate WellFormed(t: Token) {
    && (t.literal.Some? <==> IsLiteralKind(t.kind))
    && (t.kind == Identifier ==> t.literal == Some(IdentifierLit(t.lexeme)))
    && (t.kind == Number ==> t.literal == Some(NumberLit(t.lexeme)))
    && (t.kind == String ==> t.literal.value.StringLit? && t.lexeme == "\"" + t.literal.value.text + "\"")
    && (!IsLiteralKind(t.kind) && t.kind != Eof && t.kind != Error ==> t.lexeme == Display(t.kind))
    && (t.kind == Eof ==> t.lexeme == "")
  }

  /** What the `match` of `scan_token` guarantees about the token read at `start` and the cursor after it. */
  predicate TokenFacts(source: string, start: nat, step: Step) {
    && WellFormed(step.token)
    && (step.token.kind == Eof <==> CharAt(source, start) == '\0')
    && (step.next.current == |source| + 1 ==> step.token.kind == Eof && start == |source|)
  }

  /** The punctuation kind whose `Display` text is the character `c`. */
  function PunctuationKind(c: char): (k: TokenType)
    requires c in "(){},.-+;*/"
    ensures IsSingleChar(k) && [c] == Display(k)
  {
    match c
    case '(' => LeftParen
    case ')' => RightParen
    case '{' => LeftBrace
    case '}' => RightBrace
    case ',' => Comma
    case '.' => Dot
    case '-' => Minus
    case '+' => Plus
    case ';' => Semicolon
    case '*' => Star
    case '/' => Slash
  }

  /** The one-character operator kind whose `Display` text is the character `c`. */
  function OperatorKind(c: char): (k: TokenType)
    requires c in "!=<>"
    ensures IsOneChar(k) && [c] == Display(k)
  {
    match c
    case '!' => Bang
    case '=' => Equal
    case '<' => Less
    case '>' => Greater
  }

  /** A token whose lexeme is its kind's `Display` text is well formed, for every kind without a literal. */
  lemma DisplayTokenWellFormed(k: TokenType, line: nat)
    requires !IsLiteralKind(k) && k != Eof && k != Error
    ensures WellFormed(Token(k, Display(k), None, line))
  {
  }

  lemma PunctuationFacts(source: string, start: nat, line: nat)
    requires start < |source| && source[start] in "(){},.-+;*/"
    ensures TokenAt(source, start, line).Some? && TokenFacts(source, start, TokenAt(source, start, line).value)
  {
    var k := PunctuationKind(source[start]);
    ScanPunctuation(source, start, line, k);
    DisplayTokenWellFormed(k, line);
    assert source[start] != '\0' by {
      assert [source[start]][0] == Display(k)[0];
    }
  }

  lemma OperatorFacts(source: string, start: nat, line: nat)
    requires start < |source| && source[start] in "!=<>"
    ensures TokenAt(source, start, line).Some? && TokenFacts(source, start, TokenAt(source, start, line).value)
  {
    var one := OperatorKind(source[start]);
    ScanOperator(source, start, line, one);
    DisplayTokenWellFormed(one, line);
    DisplayTokenWellFormed(WithEqual(one), line);
    assert source[start] != '\0' by {
      assert [source[start]][0] == Display(one)[0];
    }
  }

  lemma WordFacts(source: string, start: nat, line: nat)
    requires start < |source| && IsAlpha(source[start])
    ensures TokenAt(source, start, line).Some? && TokenFacts(source, start, TokenAt(source, start, line).value)
  {
    ScanWord(source, start, line);
    var word := TokenAt(source, start, line).value.token.lexeme;
    if word in Keywords {
      KeywordsDisplay(word);
    }
  }

  lemma StringFacts(source: string, start: nat, line: nat)
    requires start < |source| && source[start] == '"'
    requires TokenAt(source, start, line).Some?
    ensures TokenFacts(source, start, TokenAt(source, start, line).value)
  {
    ScanStringLiteral(source, start, line);
  }

  /**
   * The `match` of `scan_token`: the token is well formed, it is `Eof`
   * exactly when it was read from a NUL (a real one or the one past the
   * end), and only the `Eof` at the end moves the cursor past the end of the
   * source.
   */
  lemma TokenAtFacts(source: string, start: nat, line: nat)
    requires start <= |source|
    requires TokenAt(source, start, line).Some?
    ensures TokenFacts(source, start, TokenAt(source, start, line).value)
  {
    if start == |source| {
      ScanNul(source, start, line);
    } else {
      var c := source[start];
      if c in "(){},.-+;*/" {
        PunctuationFacts(source, start, line);
      } else if c in "!=<>" {
        OperatorFacts(source, start, line);
      } else if c == '"' {
        StringFacts(source, start, line);
      } else if c == '\0' {
        ScanNul(source, start, line);
      } else if IsDigit(c) {
        ScanNumber(source, start, line);
      } else if IsAlpha(c) {
        WordFacts(source, start, line);
      } else {
        ScanUnexpected(source, start, line);
      }
    }
  }

  /** One `scan_token`: blanks and comments are skipped, then the token read is as `TokenAtFacts` says. */
  lemma ScanTokenFacts(source: string, pos: Pos)
    requires pos.current <= |source|
    requires ScanToken(source, pos).Some?
    ensures var ws := SkipWhitespace(source, pos);
      var step := ScanToken(source, pos).value;
      && WellFormed(step.token)
      && (step.token.kind == Eof <==> CharAt(source, ws.current) == '\0')
      && (step.next.current == |source| + 1 ==> step.token.kind == Eof && ws.current == |source|)
  {
    var ws := SkipWhitespace(source, pos);
    TokenAtFacts(source, ws.current, ws.line);
  }

  /**
   * What a finished scan from line `line` looks like: every token is well
   * formed and on a line from `line` on, lines never decrease, the list
   * ends with an `Eof` and, when `noNul` holds, that `Eof` is the only one.
   */
  predicate ScannedList(ts: seq<Token>, line: nat, noNul: bool) {
    && (forall i :: 0 <= i < |ts| ==> WellFormed(ts[i]) && line <= ts[i].line)
    && (forall i, j :: 0 <= i < j < |ts| ==> ts[i].line <= ts[j].line)
    && |ts| > 0 && ts[|ts| - 1].kind == Eof
    && (noNul ==> forall i :: 0 <= i < |ts| - 1 ==> ts[i].kind != Eof)
  }

  /**
   * `scan_tokens` from any cursor inside the source ends as `ScannedList`
   * says, with `noNul` when the source holds no NUL character.
   */
  lemma {:induction false} ScanFromFacts(source: string, pos: Pos)
    requires pos.current <= |source|
    requires ScanFrom(source, pos).Some?
    ensures ScannedList(ScanFrom(source, pos).value, pos.line, '\0' !in source)
    decreases |source| - pos.current
  {
    var step, rest := ScanFromFirst(source, pos);
    if step.next.current <= |source| {
      ScanFromFacts(source, step.next);
    }
    ConsTokens(step.token, rest, pos.line, '\0' !in source);
  }

  /** The first round of `ScanFromFacts`: the facts about the first token, and the scan after it. */
  lemma ScanFromFirst(source: string, pos: Pos) returns (step: Step, rest: seq<Token>)
    requires pos.current <= |source|
    requires ScanFrom(source, pos).Some?
    ensures pos.current < step.next.current <= |source| + 1
    ensures ScanFrom(source, step.next) == Some(rest)
    ensures ScanFrom(source, pos).value == [step.token] + rest
    ensures WellFormed(step.token) && pos.line <= step.token.line && step.token.line == step.next.line
    ensures step.next.current == |source| + 1 ==> rest == [] && step.token.kind == Eof
    ensures '\0' !in source && step.next.current <= |source| ==> step.token.kind != Eof
  {
    step, rest := ScanFromStep(source, pos);
    ScanTokenFacts(source, pos);
    var ws := SkipWhitespace(source, pos);
    assert '\0' !in source ==> CharAt(source, ws.current) == '\0' ==> ws.current == |source|;
  }

  /** `ScannedList` for one more token in front: the last token alone, or a token before a scanned list. */
  lemma ConsTokens(t: Token, rest: seq<Token>, line: nat, noNul: bool)
    requires WellFormed(t) && line <= t.line
    requires rest == [] ==> t.kind == Eof
    requires rest != [] ==> ScannedList(rest, t.line, noNul)
    requires noNul && rest != [] ==> t.kind != Eof
    ensures ScannedList([t] + rest, line, noNul)
  {
    ConsWellFormed(t, rest, line);
    ConsLines(t, rest);
    ConsEof(t, rest, rest != [], noNul);
  }

  lemma ConsWellFormed(t: Token, rest: seq<Token>, line: nat)
    requires WellFormed(t) && line <= t.line
    requires forall i :: 0 <= i < |rest| ==> WellFormed(rest[i]) && t.line <= rest[i].line
    ensures var ts := [t] + rest; forall i :: 0 <= i < |ts| ==> WellFormed(ts[i]) && line <= ts[i].line
  {
    var ts := [t] + rest;
    forall i | 0 <= i < |ts|
      ensures WellFormed(ts[i]) && line <= ts[i].line
    {
      if i > 0 {
        assert ts[i] == rest[i - 1];
      }
    }
  }

  lemma ConsLines(t: Token, rest: seq<Token>)
    requires forall i :: 0 <= i < |rest| ==> t.line <= rest[i].line
    requires forall i, j :: 0 <= i < j < |rest| ==> rest[i].line <= rest[j].line
    ensures var ts := [t] + rest; forall i, j :: 0 <= i < j < |ts| ==> ts[i].line <= ts[j].line
  {
    var ts := [t] + rest;
    forall i, j | 0 <= i < j < |ts|
      ensures ts[i].line <= ts[j].line
    {
      assert ts[j] == rest[j - 1];
      if i > 0 {
        assert ts[i] == rest[i - 1];
      }
    }
  }

  lemma ConsEof(t: Token, rest: seq<Token>, more: bool, noNul: bool)
    requires more ==> |rest| > 0 && rest[|rest| - 1].kind == Eof
    requires !more ==> rest == [] && t.kind == Eof
    requires noNul ==> forall i :: 0 <= i < |rest| - 1 ==> rest[i].kind != Eof
    requires noNul && more ==> t.kind != Eof
    ensures var ts := [t] + rest;
      && |ts| > 0 && ts[|ts| - 1].kind == Eof
      && (noNul ==> forall i :: 0 <= i < |ts| - 1 ==> ts[i].kind != Eof)
  {
    var ts := [t] + rest;
    if more {
      assert ts[|ts| - 1] == rest[|rest| - 1];
    }
    if noNul {
      forall i | 0 <= i < |ts| - 1
        ensures ts[i].kind != Eof
      {
        if i > 0 {
          assert ts[i] == rest[i - 1];
        }
      }
    }
  }

  /** The whole scan: well-formed tokens on lines from 1 on, ending with exactly one `Eof` when the source has no NUL. */
  lemma ScanFacts(source: string)
    requires Scan(source).Some?
    ensures var ts := Scan(source).value;
      && |ts| > 0 && ts[|ts| - 1].kind == Eof
      && (forall i :: 0 <= i < |ts| ==> WellFormed(ts[i]) && 1 <= ts[i].line)
      && ('\0' !in source ==> forall i :: 0 <= i < |ts| - 1 ==> ts[i].kind != Eof)
  {
    ScanFromFacts(source, Pos(0, 1));
  }
}
