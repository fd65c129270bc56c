/**
 * When `scan_tokens` returns. Its only loop that can run forever is the one
 * inside a string literal that has no closing quote. Whether the scan reaches
 * such a quote is decided here by reading the text once, left to right, in
 * three modes: ordinary code, inside a string literal, inside a line comment.
 * The scan returns exactly when that reading does not end inside a string.
 */
module LexingTermination {

  import opened Options
  import opened TokenTypes
  import opened Tokens
  import opened Lexing
  import opened LexingProps

  /** Where a left-to-right reading of the text stands: in code, in a string literal, or in a line comment. */
  datatype Mode = Code | InString | InComment

  /**
   * The mode after reading `source` from `i` to its end, starting in `mode`.
   * In code, `"` opens a string and `//` a comment; a string ends at the next
   * `"`, a comment at the next newline.
   */
  function EndMode(source: string, i: nat, mode: Mode): (m: Mode)
    decreases |source| - i
  {
    if i >= |source| then mode
    else
      match mode
      case Code =>
        if source[i] == '"' then EndMode(source, i + 1, InString)
        else if source[i] == '/' && CharAt(source, i + 1) == '/' then EndMode(source, i + 2, InComment)
        else EndMode(source, i + 1, Code)
      case InString =>
        if source[i] == '"' then EndMode(source, i + 1, Code) else EndMode(source, i + 1, InString)
      case InComment =>
        if source[i] == '\n' then EndMode(source, i + 1, Code) else EndMode(source, i + 1, InComment)
  }

  /** Every string literal in the code closes: the reading from the start does not end inside a string. */
  predicate StringsClose(source: string) {
    EndMode(source, 0, Code) != InString
  }

  // ---------------------------------------------------------------------
  // Reading over one run of the scanner

  /** A line comment, read to its end, leaves the reading inside a string exactly when the code after it does. */
  lemma {:induction false} CommentMode(source: string, cur: nat)
    requires cur <= |source|
    ensures (EndMode(source, cur, InComment) == InString) == (EndMode(source, SkipComment(source, cur), Code) == InString)
    decreases |source| - cur
  {
    if cur < |source| && source[cur] != '\n' {
      CommentMode(source, cur + 1);
    }
  }

  /** `skip_whitespace` does not change whether the reading ends inside a string. */
  lemma {:induction false} SkipMode(source: string, pos: Pos)
    requires pos.current <= |source|
    ensures (EndMode(source, pos.current, Code) == InString) == (EndMode(source, SkipWhitespace(source, pos).current, Code) == InString)
    decreases |source| - pos.current
  {
    if pos.current < |source| {
      var c := source[pos.current];
      if c == ' ' || c == '\r' || c == '\t' || c == '\n' {
        var next := Pos(pos.current + 1, if c == '\n' then pos.line + 1 else pos.line);
        assert SkipWhitespace(source, pos) == SkipWhitespace(source, next);
        SkipMode(source, next);
      } else if c == '/' && CharAt(source, pos.current + 1) == '/' {
        var e := SkipComment(source, pos.current);
        assert SkipWhitespace(source, pos) == SkipWhitespace(source, Pos(e, pos.line));
        assert e == SkipComment(source, pos.current + 1) == SkipComment(source, pos.current + 2);
        CommentMode(source, pos.current + 2);
        SkipMode(source, Pos(e, pos.line));
      }
    }
  }

  /** A run of letters is code the reading passes over. */
  lemma {:induction false} AlphaMode(source: string, cur: nat)
    requires cur <= |source|
    ensures EndMode(source, cur, Code) == EndMode(source, AlphaEnd(source, cur), Code)
    decreases |source| - cur
  {
    if IsAlpha(CharAt(source, cur)) {
      AlphaMode(source, cur + 1);
    }
  }

  /** A run of digits is code the reading passes over. */
  lemma {:induction false} DigitsMode(source: string, cur: nat)
    requires cur <= |source|
    ensures EndMode(source, cur, Code) == EndMode(source, DigitsEnd(source, cur), Code)
    decreases |source| - cur
  {
    if IsDigit(CharAt(source, cur)) {
      DigitsMode(source, cur + 1);
    }
  }

  /** The rest of a number is code the reading passes over. */
  lemma NumberMode(source: string, cur: nat)
    requires cur <= |source|
    ensures EndMode(source, cur, Code) == EndMode(source, NumberEnd(source, cur), Code)
  {
    var whole := DigitsEnd(source, cur);
    DigitsMode(source, cur);
    if CharAt(source, whole) == '.' && IsDigit(CharAt(source, whole + 1)) {
      assert EndMode(source, whole, Code) == EndMode(source, whole + 1, Code);
      DigitsMode(source, whole + 1);
    } else {
      DigitsMode(source, whole);
    }
  }

  /** Inside a string, the reading returns to code just after the quote that closes it. */
  lemma {:induction false} StringMode(source: string, pos: Pos)
    requires StringEnd(source, pos).Some?
    ensures EndMode(source, pos.current, InString) == EndMode(source, StringEnd(source, pos).value.current + 1, Code)
    decreases |source| - pos.current
  {
    if source[pos.current] != '"' {
      StringMode(source, Pos(pos.current + 1, if source[pos.current] == '\n' then pos.line + 1 else pos.line));
    }
  }

  /** Inside a string with no quote ahead, the reading ends inside the string. */
  lemma {:induction false} StringModeHangs(source: string, pos: Pos)
    requires StringEnd(source, pos).None?
    ensures EndMode(source, pos.current, InString) == InString
    decreases |source| - pos.current
  {
    if pos.current < |source| {
      StringModeHangs(source, Pos(pos.current + 1, if source[pos.current] == '\n' then pos.line + 1 else pos.line));
    }
  }

  /**
   * One token, from where `skip_whitespace` stopped: when it does not finish,
   * the reading from its start ends inside a string; when it does, the
   * reading from after it ends as the reading from its start.
   */
  lemma TokenMode(source: string, start: nat, line: nat)
    requires start <= |source| && SkipStop(source, start)
    ensures TokenAt(source, start, line).None? ==> EndMode(source, start, Code) == InString
    ensures TokenAt(source, start, line).Some? ==>
      EndMode(source, TokenAt(source, start, line).value.next.current, Code) == EndMode(source, start, Code)
  {
    if start == |source| {
      ScanNul(source, start, line);
    } else {
      var c := source[start];
      if c == '"' {
        StringTokenMode(source, start, line);
      } else if c in "!=<>" {
        OperatorMode(source, start, line);
      } else if IsDigit(c) {
        DispatchNumber(source, start, line);
        NumberMode(source, start + 1);
      } else if IsAlpha(c) {
        DispatchWord(source, start, line);
        AlphaMode(source, start + 1);
      } else {
        OneCharMode(source, start, line);
      }
    }
  }

  /** A string token: when it does not finish the reading ends inside it; otherwise the reading resumes in code after it. */
  lemma StringTokenMode(source: string, start: nat, line: nat)
    requires start < |source| && source[start] == '"'
    ensures TokenAt(source, start, line).None? ==> EndMode(source, start, Code) == InString
    ensures TokenAt(source, start, line).Some? ==>
      EndMode(source, TokenAt(source, start, line).value.next.current, Code) == EndMode(source, start, Code)
  {
    DispatchString(source, start, line);
    var inside := Pos(start + 1, line);
    assert EndMode(source, start, Code) == EndMode(source, start + 1, InString);
    if StringEnd(source, inside).Some? {
      StringMode(source, inside);
    } else {
      StringModeHangs(source, inside);
    }
  }

  /** `!`, `=`, `<`, `>`, alone or with `=`: code the reading passes over. */
  lemma OperatorMode(source: string, start: nat, line: nat)
    requires start < |source| && source[start] in "!=<>"
    ensures TokenAt(source, start, line).Some?
    ensures EndMode(source, TokenAt(source, start, line).value.next.current, Code) == EndMode(source, start, Code)
  {
    var one := OperatorKind(source[start]);
    DispatchOperator(source, start, line, one);
    assert EndMode(source, start, Code) == EndMode(source, start + 1, Code);
    if CharAt(source, start + 1) == '=' {
      assert EndMode(source, start + 1, Code) == EndMode(source, start + 2, Code);
    }
  }

  /** The one-character tokens (punctuation, `/` not followed by `/`, NUL, an unexpected character): code the reading passes over. */
  lemma OneCharMode(source: string, start: nat, line: nat)
    requires start < |source| && SkipStop(source, start)
    requires source[start] != '"' && source[start] !in "!=<>" && !IsDigit(source[start]) && !IsAlpha(source[start])
    ensures TokenAt(source, start, line).Some? && TokenAt(source, start, line).value.next.current == start + 1
    ensures EndMode(source, start + 1, Code) == EndMode(source, start, Code)
  {
    var c := source[start];
    if c in "(){},.-+;*/" {
      ScanPunctuation(source, start, line, PunctuationKind(c));
    } else if c == '\0' {
      ScanNul(source, start, line);
    } else {
      ScanUnexpected(source, start, line);
    }
  }

  // ---------------------------------------------------------------------
  // The whole scan

  /**
   * `scan_tokens` from any cursor returns exactly when the reading from that
   * cursor does not end inside a string literal.
   */
  lemma {:induction false} ScanFromFinishes(source: string, pos: Pos)
    requires pos.current <= |source| + 1
    ensures ScanFrom(source, pos).Some? <==> EndMode(source, pos.current, Code) != InString
    decreases |source| + 1 - pos.current
  {
    if pos.current <= |source| {
      var ws := SkipWhitespace(source, pos);
      SkipMode(source, pos);
      SkipWhitespaceFacts(source, pos);
      TokenMode(source, ws.current, ws.line);
      match ScanToken(source, pos)
      case None =>
      case Some(step) =>
        ScanFromFinishes(source, step.next);
    }
  }

  /** The whole scan returns exactly when every string literal in the code closes. */
  lemma ScanFinishes(source: string)
    ensures Scan(source).Some? <==> StringsClose(source)
  {
    ScanFromFinishes(source, Pos(0, 1));
  }

  /** Reading text with no quote from the code or a comment never ends inside a string. */
  lemma {:induction false} QuoteFreeMode(source: string, i: nat, mode: Mode)
    requires mode != InString
    requires forall k :: i <= k < |source| ==> source[k] != '"'
    ensures EndMode(source, i, mode) != InString
    decreases |source| - i
  {
    if i < |source| {
      if mode == Code && source[i] == '/' && CharAt(source, i + 1) == '/' {
        QuoteFreeMode(source, i + 2, InComment);
      } else if mode == InComment && source[i] != '\n' {
        QuoteFreeMode(source, i + 1, InComment);
      } else {
        QuoteFreeMode(source, i + 1, Code);
      }
    }
  }

  /** A source with no `"` at all is scanned to the end. */
  lemma QuoteFreeScanFinishes(source: string)
    requires '"' !in source
    ensures Scan(source).Some?
  {
    QuoteFreeMode(source, 0, Code);
    ScanFinishes(source);
  }

  /**
   * `scan_tokens` returns when every string literal closes, and then its
   * tokens are well formed, on lines from 1 on, in non-decreasing line
   * order, and end with an `Eof`; with no NUL in the source, that `Eof` is
   * the only one.
   */
  lemma ScanTokensFacts(source: string)
    requires StringsClose(source)
    ensures Scan(source).Some?
    ensures ScannedList(Scan(source).value, 1, '\0' !in source)
  {
    ScanFinishes(source);
    ScanFromFacts(source, Pos(0, 1));
  }
}
