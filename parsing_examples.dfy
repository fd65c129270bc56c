/**
 * The parser on the token lists of `1 2`, `1 - 2 - 3`, `1 + 2 * 3`,
 * `(1 + 2) * 3`, `- - 1` and `(1 + 2`, each stated for every list of that
 * shape: the literals may be any `false`, `true`, `nil`, number or string
 * tokens and the operators any of their level. Each holds for every amount
 * of fuel: none of the successful parses recovers from an error, and
 * recovery is the only thing that spends fuel.
 */
module ParsingExamples {

  import opened TokenTypes
  import opened Tokens
  import Ast
  import opened Parsing
  import opened ParsingProps

  /** The token kinds `primary` reads as a literal. */
  predicate IsLiteralToken(t: Token) {
    t.kind in [False, True, Nil, Number, String]
  }

  /** A list whose only `Eof` is its last token, of length `n`. */
  predicate Shaped(ts: seq<Token>, n: nat) {
    |ts| == n > 0 && EndsWithEof(ts) && FirstEof(ts) == n - 1
  }

  /** A level whose operand returns a tree goes on with its operator loop from after that tree. */
  lemma LevelStart(fuel: nat, ts: seq<Token>, pos: nat, level: Level, e: Ast.Expression, next: nat)
    requires EndsWithEof(ts) && CursorOk(ts, pos)
    requires Operand(fuel, ts, pos, level) == Returns(Ok(e), next)
    ensures CursorOk(ts, next) && Binary(fuel, ts, pos, level) == BinaryLoop(fuel, ts, next, level, e)
  {
  }

  /** A level whose operand returns a tree with no operator of the level after it returns that tree. */
  lemma PassThrough(fuel: nat, ts: seq<Token>, pos: nat, level: Level, e: Ast.Expression, next: nat)
    requires EndsWithEof(ts) && CursorOk(ts, pos)
    requires Operand(fuel, ts, pos, level) == Returns(Ok(e), next)
    requires !Matches(ts, next, Operators(level))
    ensures Binary(fuel, ts, pos, level) == Returns(Ok(e), next)
  {
    LoopEnd(fuel, ts, next, level, e);
  }

  /** A literal not followed by `/` or `*` is, at the factor level, that literal alone. */
  lemma Atom(fuel: nat, ts: seq<Token>, pos: nat)
    requires EndsWithEof(ts) && CursorOk(ts, pos) && pos + 1 < |ts|
    requires IsLiteralToken(ts[pos])
    requires ts[pos + 1].kind !in Operators(FactorLevel)
    ensures CursorOk(ts, pos + 1)
    ensures Binary(fuel, ts, pos, FactorLevel) == Returns(Ok(Ast.Literal(ts[pos])), pos + 1)
  {
    LiteralSound(fuel, ts, pos);
    UnaryIsPrimary(fuel, ts, pos);
    PassThrough(fuel, ts, pos, FactorLevel, Ast.Literal(ts[pos]), pos + 1);
  }

  /** A tree at the factor level followed by no binary operator is a whole expression. */
  lemma ToTop(fuel: nat, ts: seq<Token>, pos: nat, e: Ast.Expression, next: nat)
    requires EndsWithEof(ts) && CursorOk(ts, pos) && CursorOk(ts, next)
    requires Binary(fuel, ts, pos, FactorLevel) == Returns(Ok(e), next)
    requires OperatorHeight(ts[next].kind) == 0
    ensures Expression(fuel, ts, pos) == Returns(Ok(e), next)
  {
    PassThrough(fuel, ts, pos, TermLevel, e, next);
    TermToTop(fuel, ts, pos, e, next);
  }

  /** A tree at the term level followed by no binary operator is a whole expression. */
  lemma TermToTop(fuel: nat, ts: seq<Token>, pos: nat, e: Ast.Expression, next: nat)
    requires EndsWithEof(ts) && CursorOk(ts, pos) && CursorOk(ts, next)
    requires Binary(fuel, ts, pos, TermLevel) == Returns(Ok(e), next)
    requires OperatorHeight(ts[next].kind) == 0
    ensures Expression(fuel, ts, pos) == Returns(Ok(e), next)
  {
    PassThrough(fuel, ts, pos, ComparisonLevel, e, next);
    PassThrough(fuel, ts, pos, EqualityLevel, e, next);
  }

  /** Two literals joined by `+` or `-`, followed by no binary operator, are one `Binary` expression. */
  lemma SumOfTwo(fuel: nat, ts: seq<Token>, pos: nat)
    requires EndsWithEof(ts) && CursorOk(ts, pos + 3)
    requires IsLiteralToken(ts[pos]) && IsLiteralToken(ts[pos + 2])
    requires ts[pos + 1].kind in Operators(TermLevel) && OperatorHeight(ts[pos + 3].kind) == 0
    ensures Expression(fuel, ts, pos) == Returns(Ok(Ast.Binary(Ast.Literal(ts[pos]), ts[pos + 1], Ast.Literal(ts[pos + 2]))), pos + 3)
  {
    var left := Ast.Literal(ts[pos]);
    var sum := Ast.Binary(left, ts[pos + 1], Ast.Literal(ts[pos + 2]));
    Atom(fuel, ts, pos);
    Atom(fuel, ts, pos + 2);
    LoopStep(fuel, ts, pos + 1, TermLevel, left, Ast.Literal(ts[pos + 2]), pos + 3);
    LoopEnd(fuel, ts, pos + 3, TermLevel, sum);
    TermToTop(fuel, ts, pos, sum, pos + 3);
  }

  /** Two literals joined by `*` or `/`, followed by no factor operator, are one `Binary` at the factor level. */
  lemma ProductOfTwo(fuel: nat, ts: seq<Token>, pos: nat)
    requires EndsWithEof(ts) && CursorOk(ts, pos + 3)
    requires IsLiteralToken(ts[pos]) && IsLiteralToken(ts[pos + 2])
    requires ts[pos + 1].kind in Operators(FactorLevel) && ts[pos + 3].kind !in Operators(FactorLevel)
    ensures Binary(fuel, ts, pos, FactorLevel) == Returns(Ok(Ast.Binary(Ast.Literal(ts[pos]), ts[pos + 1], Ast.Literal(ts[pos + 2]))), pos + 3)
  {
    var left := Ast.Literal(ts[pos]);
    var product := Ast.Binary(left, ts[pos + 1], Ast.Literal(ts[pos + 2]));
    LiteralSound(fuel, ts, pos);
    UnaryIsPrimary(fuel, ts, pos);
    Atom(fuel, ts, pos + 2);
    LoopStep(fuel, ts, pos + 1, FactorLevel, left, Ast.Literal(ts[pos + 2]), pos + 3);
    LoopEnd(fuel, ts, pos + 3, FactorLevel, product);
  }

  /** `1 2`, or any two literals: a successful parse need not reach `Eof`; it stops with the cursor on the second. */
  lemma StopsBeforeEof(fuel: nat, ts: seq<Token>)
    requires Shaped(ts, 3) && IsLiteralToken(ts[0]) && IsLiteralToken(ts[1])
    ensures Parse(fuel, ts) == Returns(Ok(Ast.Literal(ts[0])), 1)
  {
    Atom(fuel, ts, 0);
    ToTop(fuel, ts, 0, Ast.Literal(ts[0]), 1);
  }

  /** `1 - 2 - 3`, or any `a - b - c` with `+` or `-`: the term level folds to the left, `(a - b) - c`. */
  lemma LeftAssociative(fuel: nat, ts: seq<Token>)
    requires Shaped(ts, 6) && IsLiteralToken(ts[0]) && IsLiteralToken(ts[2]) && IsLiteralToken(ts[4])
    requires ts[1].kind in Operators(TermLevel) && ts[3].kind in Operators(TermLevel)
    ensures Parse(fuel, ts) == Returns(Ok(Ast.Binary(Ast.Binary(Ast.Literal(ts[0]), ts[1], Ast.Literal(ts[2])),
                                                     ts[3], Ast.Literal(ts[4]))), 5)
  {
    var one := Ast.Literal(ts[0]);
    var first := Ast.Binary(one, ts[1], Ast.Literal(ts[2]));
    var both := Ast.Binary(first, ts[3], Ast.Literal(ts[4]));
    Atom(fuel, ts, 0);
    Atom(fuel, ts, 2);
    Atom(fuel, ts, 4);
    LoopStep(fuel, ts, 1, TermLevel, one, Ast.Literal(ts[2]), 3);
    LoopStep(fuel, ts, 3, TermLevel, first, Ast.Literal(ts[4]), 5);
    LoopEnd(fuel, ts, 5, TermLevel, both);
    TermToTop(fuel, ts, 0, both, 5);
  }

  /** `1 + 2 * 3`, or any `a + b * c` with term and factor operators: the factor level takes `b * c` first, `a + (b * c)`. */
  lemma FactorBindsTighter(fuel: nat, ts: seq<Token>)
    requires Shaped(ts, 6) && IsLiteralToken(ts[0]) && IsLiteralToken(ts[2]) && IsLiteralToken(ts[4])
    requires ts[1].kind in Operators(TermLevel) && ts[3].kind in Operators(FactorLevel)
    ensures Parse(fuel, ts) == Returns(Ok(Ast.Binary(Ast.Literal(ts[0]), ts[1],
                                                     Ast.Binary(Ast.Literal(ts[2]), ts[3], Ast.Literal(ts[4])))), 5)
  {
    var one, two := Ast.Literal(ts[0]), Ast.Literal(ts[2]);
    var product := Ast.Binary(two, ts[3], Ast.Literal(ts[4]));
    var sum := Ast.Binary(one, ts[1], product);
    Atom(fuel, ts, 0);
    ProductOfTwo(fuel, ts, 2);
    LoopStep(fuel, ts, 1, TermLevel, one, product, 5);
    LoopEnd(fuel, ts, 5, TermLevel, sum);
    TermToTop(fuel, ts, 0, sum, 5);
  }

  /** `(`, two literals joined by `+` or `-`, and `)`: a `Grouping`, which `unary` returns as it is. */
  lemma GroupOfSum(fuel: nat, ts: seq<Token>, pos: nat)
    requires EndsWithEof(ts) && CursorOk(ts, pos + 5)
    requires ts[pos].kind == LeftParen && ts[pos + 4].kind == RightParen
    requires IsLiteralToken(ts[pos + 1]) && IsLiteralToken(ts[pos + 3]) && ts[pos + 2].kind in Operators(TermLevel)
    ensures Unary(fuel, ts, pos)
         == Returns(Ok(Ast.Grouping(Ast.Binary(Ast.Literal(ts[pos + 1]), ts[pos + 2], Ast.Literal(ts[pos + 3])))), pos + 5)
  {
    SumOfTwo(fuel, ts, pos + 1);
    GroupStep(fuel, ts, pos, Ast.Binary(Ast.Literal(ts[pos + 1]), ts[pos + 2], Ast.Literal(ts[pos + 3])), pos + 4);
    UnaryIsPrimary(fuel, ts, pos);
  }

  /** `(1 + 2) * 3`, or any `(a + b) * c`: a grouping is a primary, so it is the left operand of `*`. */
  lemma GroupingFirst(fuel: nat, ts: seq<Token>)
    requires Shaped(ts, 8) && ts[0].kind == LeftParen && ts[4].kind == RightParen
    requires IsLiteralToken(ts[1]) && IsLiteralToken(ts[3]) && IsLiteralToken(ts[6])
    requires ts[2].kind in Operators(TermLevel) && ts[5].kind in Operators(FactorLevel)
    ensures Parse(fuel, ts) == Returns(Ok(Ast.Binary(Ast.Grouping(Ast.Binary(Ast.Literal(ts[1]), ts[2], Ast.Literal(ts[3]))),
                                                     ts[5], Ast.Literal(ts[6]))), 7)
  {
    var group := Ast.Grouping(Ast.Binary(Ast.Literal(ts[1]), ts[2], Ast.Literal(ts[3])));
    ShapedEnd(ts, 8);
    GroupTimesLiteral(fuel, ts, 0);
    ToTop(fuel, ts, 0, Ast.Binary(group, ts[5], Ast.Literal(ts[6])), 7);
  }

  /** `(a + b) * c` followed by no `*` or `/`: the factor level makes the grouping the left operand. */
  lemma GroupTimesLiteral(fuel: nat, ts: seq<Token>, pos: nat)
    requires EndsWithEof(ts) && CursorOk(ts, pos + 7) && ts[pos].kind == LeftParen && ts[pos + 4].kind == RightParen
    requires IsLiteralToken(ts[pos + 1]) && IsLiteralToken(ts[pos + 3]) && IsLiteralToken(ts[pos + 6])
    requires ts[pos + 2].kind in Operators(TermLevel) && ts[pos + 5].kind in Operators(FactorLevel)
    requires ts[pos + 7].kind !in Operators(FactorLevel)
    ensures Binary(fuel, ts, pos, FactorLevel)
         == Returns(Ok(Ast.Binary(Ast.Grouping(Ast.Binary(Ast.Literal(ts[pos + 1]), ts[pos + 2], Ast.Literal(ts[pos + 3]))),
                                  ts[pos + 5], Ast.Literal(ts[pos + 6]))), pos + 7)
  {
    var group := Ast.Grouping(Ast.Binary(Ast.Literal(ts[pos + 1]), ts[pos + 2], Ast.Literal(ts[pos + 3])));
    var product := Ast.Binary(group, ts[pos + 5], Ast.Literal(ts[pos + 6]));
    GroupOfSum(fuel, ts, pos);
    LiteralSound(fuel, ts, pos + 6);
    UnaryIsPrimary(fuel, ts, pos + 6);
    LevelStart(fuel, ts, pos, FactorLevel, group, pos + 5);
    LoopStep(fuel, ts, pos + 5, FactorLevel, group, Ast.Literal(ts[pos + 6]), pos + 7);
    LoopEnd(fuel, ts, pos + 7, FactorLevel, product);
  }

  /** Two prefix operators before a literal: `unary` nests them, the first outermost. */
  lemma DoublePrefix(fuel: nat, ts: seq<Token>, pos: nat)
    requires EndsWithEof(ts) && CursorOk(ts, pos + 3)
    requires ts[pos].kind in [Bang, Minus] && ts[pos + 1].kind in [Bang, Minus] && IsLiteralToken(ts[pos + 2])
    ensures Unary(fuel, ts, pos) == Returns(Ok(Ast.Unary(ts[pos], Ast.Unary(ts[pos + 1], Ast.Literal(ts[pos + 2])))), pos + 3)
  {
    LiteralSound(fuel, ts, pos + 2);
    UnaryIsPrimary(fuel, ts, pos + 2);
    PrefixStep(fuel, ts, pos + 1, Ast.Literal(ts[pos + 2]), pos + 3);
    PrefixStep(fuel, ts, pos, Ast.Unary(ts[pos + 1], Ast.Literal(ts[pos + 2])), pos + 3);
  }

  /** `- - 1`, or any two prefix operators before a literal: `unary` recurses to the right, `-(-1)`. */
  lemma PrefixNests(fuel: nat, ts: seq<Token>)
    requires Shaped(ts, 4) && ts[0].kind in [Bang, Minus] && ts[1].kind in [Bang, Minus] && IsLiteralToken(ts[2])
    ensures Parse(fuel, ts) == Returns(Ok(Ast.Unary(ts[0], Ast.Unary(ts[1], Ast.Literal(ts[2])))), 3)
  {
    var e := Ast.Unary(ts[0], Ast.Unary(ts[1], Ast.Literal(ts[2])));
    DoublePrefix(fuel, ts, 0);
    PassThrough(fuel, ts, 0, FactorLevel, e, 3);
    ToTop(fuel, ts, 0, e, 3);
  }

  /**
   * `(1 + 2`, or any `(a + b` with nothing after it: the missing `)` is an
   * error at `Eof`; recovery stays at `Eof` and fails there again and again,
   * so the parse does not return with any amount of fuel.
   */
  lemma UnclosedGroupingNeverReturns(fuel: nat, ts: seq<Token>)
    requires Shaped(ts, 5) && ts[0].kind == LeftParen && IsLiteralToken(ts[1]) && IsLiteralToken(ts[3])
    requires ts[2].kind in Operators(TermLevel)
    ensures Parse(fuel, ts) == Stuck(OutOfFuel)
  {
    var errors := [MissingToken(RightParen)];
    SumOfTwo(fuel, ts, 1);
    GroupStep(fuel, ts, 0, Ast.Binary(Ast.Literal(ts[1]), ts[2], Ast.Literal(ts[3])), 4);
    UnaryIsPrimary(fuel, ts, 0);
    if fuel > 0 {
      AtEofNeverReturns(fuel - 1, ts, 4);
    }
    assert Recover(fuel, ts, 4, errors) == Stuck(OutOfFuel);
    StuckOperand(fuel, ts, 0, OutOfFuel);
  }

  // ---------------------------------------------------------------------
  // Parses that report errors

  /** A `;` followed by a literal: where a recovery can resume. */
  predicate SemicolonLiteral(ts: seq<Token>, i: nat) {
    i + 1 < |ts| && ts[i].kind == Semicolon && IsLiteralToken(ts[i + 1])
  }

  /** A `;` under the cursor starts no expression: `unary` gives `[UnexpectedToken(;)]` without moving. */
  lemma SemicolonUnexpected(fuel: nat, ts: seq<Token>, pos: nat)
    requires EndsWithEof(ts) && CursorOk(ts, pos) && ts[pos].kind == Semicolon
    ensures Unary(fuel, ts, pos) == Returns(Err([UnexpectedToken(ts[pos])]), pos)
    ensures Binary(fuel, ts, pos, FactorLevel) == Recover(fuel, ts, pos, [UnexpectedToken(ts[pos])])
  {
    PrimaryUnexpected(fuel, ts, pos);
    UnaryIsPrimary(fuel, ts, pos);
  }

  /** A literal followed by no binary operator is a whole expression. */
  lemma LiteralAlone(fuel: nat, ts: seq<Token>, pos: nat)
    requires EndsWithEof(ts) && CursorOk(ts, pos + 1) && IsLiteralToken(ts[pos])
    requires OperatorHeight(ts[pos + 1].kind) == 0
    ensures Expression(fuel, ts, pos) == Returns(Ok(Ast.Literal(ts[pos])), pos + 1)
  {
    Atom(fuel, ts, pos);
    ToTop(fuel, ts, pos, Ast.Literal(ts[pos]), pos + 1);
  }

  /**
   * A recovery on a `;` followed by a literal and then no binary operator:
   * `synchronize` passes the `;`, the literal parses, and the errors come
   * back as they were, with the cursor after the literal.
   */
  lemma RecoverOverLiteral(fuel: nat, ts: seq<Token>, pos: nat, errors: Errors)
    requires EndsWithEof(ts) && CursorOk(ts, pos + 2) && SemicolonLiteral(ts, pos)
    requires OperatorHeight(ts[pos + 2].kind) == 0 && fuel > 0
    ensures Recover(fuel, ts, pos, errors) == Returns(Err(errors), pos + 2)
  {
    SynchronizeFacts(ts, pos);
    LiteralAlone(fuel - 1, ts, pos + 1);
  }

  /** An error from a level's operand, recovered from over a `;` and a literal: the level returns that error after them. */
  lemma ClimbOne(fuel: nat, ts: seq<Token>, pos: nat, level: Level, errors: Errors, m: nat)
    requires EndsWithEof(ts) && CursorOk(ts, pos) && CursorOk(ts, m + 2) && fuel > 0 && level != FactorLevel
    requires Binary(fuel, ts, pos, Tighter(level)) == Returns(Err(errors), m)
    requires SemicolonLiteral(ts, m) && OperatorHeight(ts[m + 2].kind) == 0
    ensures Binary(fuel, ts, pos, level) == Returns(Err(errors), m + 2)
  {
    assert Binary(fuel, ts, pos, level) == Recover(fuel, ts, m, errors);
    RecoverOverLiteral(fuel, ts, m, errors);
  }

  /**
   * An error that reaches the factor level climbs through the three levels
   * above it: each recovers once, and each recovery needs its own `;` and an
   * expression after it before the error comes back from `expression`.
   */
  lemma ErrorClimbs(fuel: nat, ts: seq<Token>, pos: nat, errors: Errors, m: nat)
    requires EndsWithEof(ts) && CursorOk(ts, pos) && CursorOk(ts, m + 6) && fuel > 0
    requires Binary(fuel, ts, pos, FactorLevel) == Returns(Err(errors), m)
    requires SemicolonLiteral(ts, m) && SemicolonLiteral(ts, m + 2) && SemicolonLiteral(ts, m + 4)
    requires OperatorHeight(ts[m + 6].kind) == 0
    ensures Expression(fuel, ts, pos) == Returns(Err(errors), m + 6)
  {
    NotAnOperator(ts[m + 2].kind);
    ClimbOne(fuel, ts, pos, TermLevel, errors, m);
    ClimbTwo(fuel, ts, pos, errors, m + 2);
  }

  /** `ErrorClimbs` from the term level up. */
  lemma ClimbTwo(fuel: nat, ts: seq<Token>, pos: nat, errors: Errors, m: nat)
    requires EndsWithEof(ts) && CursorOk(ts, pos) && CursorOk(ts, m + 4) && fuel > 0
    requires Binary(fuel, ts, pos, TermLevel) == Returns(Err(errors), m)
    requires SemicolonLiteral(ts, m) && SemicolonLiteral(ts, m + 2)
    requires OperatorHeight(ts[m + 4].kind) == 0
    ensures Expression(fuel, ts, pos) == Returns(Err(errors), m + 4)
  {
    NotAnOperator(ts[m + 2].kind);
    ClimbOne(fuel, ts, pos, ComparisonLevel, errors, m);
    ClimbOne(fuel, ts, pos, EqualityLevel, errors, m + 2);
  }

  /** Neither `;` nor `Eof` is a binary operator. */
  lemma NotAnOperator(k: TokenType)
    requires k == Semicolon || k == Eof
    ensures OperatorHeight(k) == 0
  {
  }

  /** Four `; literal` pieces from `pos`, then no binary operator. */
  predicate OneErrorInput(ts: seq<Token>, pos: nat) {
    && CursorOk(ts, pos + 8)
    && SemicolonLiteral(ts, pos) && SemicolonLiteral(ts, pos + 2)
    && SemicolonLiteral(ts, pos + 4) && SemicolonLiteral(ts, pos + 6)
    && OperatorHeight(ts[pos + 8].kind) == 0
  }

  /**
   * Four `; literal` pieces, the first piece's `;` being the stray one: one
   * error, recovered from at each of the four levels in turn, the first
   * piece's literal and then each later piece taken by one recovery.
   */
  lemma OneErrorCascades(fuel: nat, ts: seq<Token>, pos: nat)
    requires EndsWithEof(ts) && OneErrorInput(ts, pos) && fuel > 0
    ensures Expression(fuel, ts, pos) == Returns(Err([UnexpectedToken(ts[pos])]), pos + 8)
  {
    SemicolonUnexpected(fuel, ts, pos);
    RecoverOverLiteral(fuel, ts, pos, [UnexpectedToken(ts[pos])]);
    ErrorClimbs(fuel, ts, pos, [UnexpectedToken(ts[pos])], pos + 2);
  }

  /**
   * `; 1 ; 1 ; 1 ; 1`, or any four `; literal` pieces: the parse
   * returns the one error `UnexpectedToken(;)` with the cursor on `Eof`. It
   * needs one nested recovery; with none allowed it is out of fuel.
   */
  lemma OneErrorReported(fuel: nat, ts: seq<Token>)
    requires Shaped(ts, 9) && SemicolonLiteral(ts, 0) && SemicolonLiteral(ts, 2)
    requires SemicolonLiteral(ts, 4) && SemicolonLiteral(ts, 6)
    ensures Parse(fuel, ts) == if fuel == 0 then Stuck(OutOfFuel) else Returns(Err([UnexpectedToken(ts[0])]), 8)
  {
    ShapedEnd(ts, 9);
    OneErrorPieces(fuel, ts);
  }

  /** `OneErrorReported` for any list that has the five pieces and then no binary operator. */
  lemma OneErrorPieces(fuel: nat, ts: seq<Token>)
    requires EndsWithEof(ts) && OneErrorInput(ts, 0)
    ensures Parse(fuel, ts) == if fuel == 0 then Stuck(OutOfFuel) else Returns(Err([UnexpectedToken(ts[0])]), 8)
  {
    if fuel == 0 {
      NoFuelNoRecovery(ts, 0);
    } else {
      OneErrorCascades(fuel, ts, 0);
    }
  }

  /** In a list of shape `n`, every cursor is valid, and the last token, `Eof`, is no binary operator. */
  lemma ShapedEnd(ts: seq<Token>, n: nat)
    requires Shaped(ts, n)
    ensures CursorOk(ts, n - 1) && OperatorHeight(ts[n - 1].kind) == 0
  {
  }

  /** With no nested recovery allowed, a `;` followed by something other than `Eof` halts the whole expression. */
  lemma NoFuelNoRecovery(ts: seq<Token>, pos: nat)
    requires EndsWithEof(ts) && CursorOk(ts, pos + 1) && ts[pos].kind == Semicolon && ts[pos + 1].kind != Eof
    ensures Expression(0, ts, pos) == Stuck(OutOfFuel)
  {
    SemicolonThenStuck(0, ts, pos);
    StuckOperand(0, ts, pos, OutOfFuel);
  }

  /**
   * `; ; 1` and six more `; 1` pieces, or any such shape: two errors. The
   * first `;` fails; its recovery re-parses from the second `;`, which fails
   * in turn and cascades over four pieces; the first error's three remaining
   * recoveries take the last three. Both errors come back, in order.
   */
  lemma TwoErrorsReported(fuel: nat, ts: seq<Token>)
    requires Shaped(ts, 16) && ts[0].kind == Semicolon && fuel >= 2
    requires SemicolonLiteral(ts, 1) && SemicolonLiteral(ts, 3) && SemicolonLiteral(ts, 5) && SemicolonLiteral(ts, 7)
    requires SemicolonLiteral(ts, 9) && SemicolonLiteral(ts, 11) && SemicolonLiteral(ts, 13)
    ensures Parse(fuel, ts) == Returns(Err([UnexpectedToken(ts[0]), UnexpectedToken(ts[1])]), 15)
  {
    ShapedEnd(ts, 16);
    TwoErrorsPieces(fuel, ts);
  }

  /** `TwoErrorsReported` for any list that has its pieces and then no binary operator. */
  lemma TwoErrorsPieces(fuel: nat, ts: seq<Token>)
    requires EndsWithEof(ts) && CursorOk(ts, 15) && ts[0].kind == Semicolon && fuel >= 2
    requires SemicolonLiteral(ts, 1) && SemicolonLiteral(ts, 3) && SemicolonLiteral(ts, 5) && SemicolonLiteral(ts, 7)
    requires SemicolonLiteral(ts, 9) && SemicolonLiteral(ts, 11) && SemicolonLiteral(ts, 13)
    requires OperatorHeight(ts[15].kind) == 0
    ensures Parse(fuel, ts) == Returns(Err([UnexpectedToken(ts[0]), UnexpectedToken(ts[1])]), 15)
  {
    NotAnOperator(ts[9].kind);
    assert OneErrorInput(ts, 1);
    OneErrorCascades(fuel - 1, ts, 1);
    NestedError(fuel, ts);
    ErrorClimbs(fuel, ts, 0, [UnexpectedToken(ts[0]), UnexpectedToken(ts[1])], 9);
  }

  /**
   * The first error of `TwoErrorsReported` at the factor level: when the
   * re-parse after the first `;` returns the second error, the recovery
   * brings it back after the first.
   */
  lemma NestedError(fuel: nat, ts: seq<Token>)
    requires EndsWithEof(ts) && CursorOk(ts, 1) && ts[0].kind == Semicolon && fuel > 0
    requires Expression(fuel - 1, ts, 1) == Returns(Err([UnexpectedToken(ts[1])]), 9)
    ensures Binary(fuel, ts, 0, FactorLevel) == Returns(Err([UnexpectedToken(ts[0]), UnexpectedToken(ts[1])]), 9)
  {
    SemicolonUnexpected(fuel, ts, 0);
    RecoverWithErrors(fuel, ts, 0, [UnexpectedToken(ts[0])], [UnexpectedToken(ts[1])], 9);
    assert [UnexpectedToken(ts[0])] + [UnexpectedToken(ts[1])] == [UnexpectedToken(ts[0]), UnexpectedToken(ts[1])];
  }

  /** A recovery on a `;` whose re-parse returns errors: the recovery returns both lists of errors, in order. */
  lemma RecoverWithErrors(fuel: nat, ts: seq<Token>, pos: nat, errors: Errors, more: Errors, next: nat)
    requires EndsWithEof(ts) && CursorOk(ts, pos + 1) && ts[pos].kind == Semicolon && fuel > 0
    requires Expression(fuel - 1, ts, pos + 1) == Returns(Err(more), next)
    ensures Recover(fuel, ts, pos, errors) == Returns(Err(errors + more), next)
  {
    SynchronizeFacts(ts, pos);
  }

  /** A halt in a level's operand halts the level. */
  lemma OperandStuck(fuel: nat, ts: seq<Token>, pos: nat, level: Level, halt: Halt)
    requires EndsWithEof(ts) && CursorOk(ts, pos) && level != FactorLevel
    requires Binary(fuel, ts, pos, Tighter(level)) == Stuck(halt)
    ensures Binary(fuel, ts, pos, level) == Stuck(halt)
  {
  }

  /** A halt in the operand after an operator halts the operator loop. */
  lemma LoopStuck(fuel: nat, ts: seq<Token>, pos: nat, level: Level, left: Ast.Expression, halt: Halt)
    requires EndsWithEof(ts) && CursorOk(ts, pos) && Matches(ts, pos, Operators(level))
    requires Operand(fuel, ts, pos + 1, level) == Stuck(halt)
    ensures BinaryLoop(fuel, ts, pos, level, left) == Stuck(halt)
  {
  }

  /**
   * A literal and a `+` or `-` before a factor level that does not return:
   * the term loop takes the operator, and the halt of its operand halts the
   * whole expression.
   */
  lemma SumStuck(fuel: nat, ts: seq<Token>, pos: nat, halt: Halt)
    requires EndsWithEof(ts) && CursorOk(ts, pos + 2) && IsLiteralToken(ts[pos])
    requires ts[pos + 1].kind in Operators(TermLevel)
    requires Binary(fuel, ts, pos + 2, FactorLevel) == Stuck(halt)
    ensures Expression(fuel, ts, pos) == Stuck(halt)
  {
    var lit := Ast.Literal(ts[pos]);
    Atom(fuel, ts, pos);
    LevelStart(fuel, ts, pos, TermLevel, lit, pos + 1);
    LoopStuck(fuel, ts, pos + 1, TermLevel, lit, halt);
    OperandStuck(fuel, ts, pos, ComparisonLevel, halt);
    OperandStuck(fuel, ts, pos, EqualityLevel, halt);
  }

  /** A `;` whose recovery lands on `Eof` halts the factor level, whatever the fuel. */
  lemma SemicolonAtEndStuck(fuel: nat, ts: seq<Token>, pos: nat)
    requires EndsWithEof(ts) && CursorOk(ts, pos + 1) && ts[pos].kind == Semicolon && ts[pos + 1].kind == Eof
    ensures Binary(fuel, ts, pos, FactorLevel) == Stuck(OutOfFuel)
  {
    SynchronizeFacts(ts, pos);
    SemicolonUnexpected(fuel, ts, pos);
    if fuel > 0 {
      AtEofNeverReturns(fuel - 1, ts, pos + 1);
    }
  }

  /** A `;` whose recovery re-parses an expression that does not return halts the factor level. */
  lemma SemicolonThenStuck(fuel: nat, ts: seq<Token>, pos: nat)
    requires EndsWithEof(ts) && CursorOk(ts, pos + 1) && ts[pos].kind == Semicolon && ts[pos + 1].kind != Eof
    requires fuel > 0 ==> Expression(fuel - 1, ts, pos + 1) == Stuck(OutOfFuel)
    ensures Binary(fuel, ts, pos, FactorLevel) == Stuck(OutOfFuel)
  {
    SynchronizeFacts(ts, pos);
    SemicolonUnexpected(fuel, ts, pos);
  }

  /**
   * `1 + ; 2 + ;`, or any `a + ; b + ;`: the first `;` fails and its recovery
   * re-parses `b + ;`, whose `;` fails too; that recovery lands on `Eof`,
   * where the expression parsed again never returns. So the two errors are
   * never reported, whatever the fuel.
   */
  lemma TwoRegionsNeverReturn(fuel: nat, ts: seq<Token>)
    requires Shaped(ts, 7) && IsLiteralToken(ts[0]) && IsLiteralToken(ts[3])
    requires ts[1].kind in Operators(TermLevel) && ts[4].kind in Operators(TermLevel)
    requires ts[2].kind == Semicolon && ts[5].kind == Semicolon
    ensures Parse(fuel, ts) == Stuck(OutOfFuel)
  {
    if fuel > 0 {
      SemicolonAtEndStuck(fuel - 1, ts, 5);
      SumStuck(fuel - 1, ts, 3, OutOfFuel);
    }
    SemicolonThenStuck(fuel, ts, 2);
    SumStuck(fuel, ts, 0, OutOfFuel);
  }
}
