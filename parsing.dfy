/**
 * What the recursive-descent parser computes, as functions of the token list
 * and the cursor. Each function mirrors one method of the parser; the class
 * in module Interpreters is proved to compute exactly these.
 *
 * The parser's recursion is unbounded on some inputs: error recovery calls
 * `expression` again without consuming a token when the cursor is at `Eof`.
 * Every function therefore takes `fuel`, the number of nested recoveries
 * allowed, and a result `Stuck(OutOfFuel)` stands for "does not return with
 * this much nesting". Only recovery spends fuel: everything else consumes a
 * token or descends one precedence level, so it terminates by itself.
 */
module Parsing {

  import opened TokenTypes
  import opened Tokens
  import opened Ast

  datatype Error = MissingToken(expected: TokenType) | UnexpectedToken(actual: Token)

  type Errors = seq<Error>

  datatype Result<T> = Ok(value: T) | Err(errors: Errors)

  /** Why a call does not return: a spinning loop, a panic in `previous`, or nesting deeper than the fuel allows. */
  datatype Halt = SyncSpins | PreviousUnderflow | OutOfFuel

  /** A call either returns a result with the cursor after it, or does not return. */
  datatype Outcome<T> = Returns(result: Result<T>, next: nat) | Stuck(halt: Halt)

  /** What `synchronize` does: returns with the cursor at `next`, or does not return. */
  datatype Sync = Synced(next: nat) | SyncStuck(halt: Halt)

  /** The four binary precedence levels, loosest first. */
  datatype Level = EqualityLevel | ComparisonLevel | TermLevel | FactorLevel

  /** The token lists the parser is given: non-empty and ending with `Eof`, as the scanner produces them. */
  predicate EndsWithEof(ts: seq<Token>) {
    |ts| > 0 && ts[|ts| - 1].kind == Eof
  }

  /** The index of the first `Eof` in `ts`, or `|ts|` when there is none. */
  function FirstEof(ts: seq<Token>): (n: nat)
    ensures n <= |ts|
    ensures n < |ts| ==> ts[n].kind == Eof
    ensures forall i :: 0 <= i < n ==> ts[i].kind != Eof
  {
    if |ts| == 0 || ts[0].kind == Eof then 0 else 1 + FirstEof(ts[1..])
  }

  /** The cursor is on a token and has not passed an `Eof`. */
  predicate CursorOk(ts: seq<Token>, pos: nat) {
    pos < |ts| && pos <= FirstEof(ts)
  }

  /** `is_at_end`: the token under the cursor is `Eof`. */
  predicate AtEnd(ts: seq<Token>, pos: nat)
    requires pos < |ts|
  {
    ts[pos].kind == Eof
  }

  /** `check`: false at `Eof`, whatever kind is asked for; otherwise the kind under the cursor. */
  predicate Check(ts: seq<Token>, pos: nat, kind: TokenType)
    requires pos < |ts|
    ensures Check(ts, pos, kind) <==> kind != Eof && ts[pos].kind == kind
  {
    !AtEnd(ts, pos) && ts[pos].kind == kind
  }

  /** `check_and_consume` answers true: some kind in `kinds` passes `check`. */
  predicate Matches(ts: seq<Token>, pos: nat, kinds: seq<TokenType>)
    requires pos < |ts|
  {
    !AtEnd(ts, pos) && ts[pos].kind in kinds
  }

  /** The cursor after `advance`: one token on, except at `Eof`. */
  function AdvancePos(ts: seq<Token>, pos: nat): (r: nat)
    requires pos < |ts|
    ensures r == pos <==> AtEnd(ts, pos)
    ensures pos <= r <= pos + 1
  {
    if AtEnd(ts, pos) then pos else pos + 1
  }

  /** The operators `check_and_consume` is asked for at each level. */
  function Operators(level: Level): (ops: seq<TokenType>)
  {
    match level
    case EqualityLevel => [BangEqual, EqualEqual]
    case ComparisonLevel => [Greater, GreaterEqual, Less, LessEqual]
    case TermLevel => [Minus, Plus]
    case FactorLevel => [Slash, Star]
  }

  /** The level that supplies this level's operands (below `FactorLevel` it is `unary`). */
  function Tighter(level: Level): Level
    requires level != FactorLevel
  {
    match level
    case EqualityLevel => ComparisonLevel
    case ComparisonLevel => TermLevel
    case TermLevel => FactorLevel
  }

  /** The precedence of a level, looser levels higher; it also orders the mutual recursion. */
  function Height(level: Level): nat {
    match level
    case EqualityLevel => 4
    case ComparisonLevel => 3
    case TermLevel => 2
    case FactorLevel => 1
  }

  /** `consume`: one token when its kind is `expected`, else `MissingToken(expected)` with the cursor unchanged. */
  function Consume(ts: seq<Token>, pos: nat, expected: TokenType): (r: Outcome<Token>)
    requires CursorOk(ts, pos)
    ensures ts[pos].kind != expected ==> r == Returns(Err([MissingToken(expected)]), pos)
    ensures r.Stuck? <==> ts[pos].kind == expected && pos == 0 && AtEnd(ts, pos)
    ensures r.Returns? && r.result.Ok? ==> r.next == AdvancePos(ts, pos) && 0 < r.next
  {
    if ts[pos].kind == expected then
      var next := AdvancePos(ts, pos);
      if next == 0 then Stuck(PreviousUnderflow) else Returns(Ok(ts[next - 1]), next)
    else
      Returns(Err([MissingToken(expected)]), pos)
  }

  /** On a list ending in `Eof`, a `consume` that returns leaves a valid cursor. */
  lemma ConsumeCursor(ts: seq<Token>, pos: nat, expected: TokenType)
    requires EndsWithEof(ts) && CursorOk(ts, pos)
    ensures Consume(ts, pos, expected).Returns? ==> CursorOk(ts, Consume(ts, pos, expected).next)
  {
  }

  /**
   * `synchronize`: one `advance`, then its loop. The loop body changes
   * nothing, so it returns at once when the token just passed is `;` and
   * spins forever otherwise; at `Eof` it is skipped. The keyword `match`
   * after it only ever sees `Eof`, so the final `advance` stays put.
   */
  function Synchronize(ts: seq<Token>, pos: nat): (r: Sync)
    requires EndsWithEof(ts) && CursorOk(ts, pos)
    ensures r.Synced? ==> pos <= r.next && CursorOk(ts, r.next) && (pos == r.next <==> AtEnd(ts, pos))
  {
    var next := AdvancePos(ts, pos);
    if next == 0 then SyncStuck(PreviousUnderflow)
    else if !AtEnd(ts, next) then
      if ts[next - 1].kind == Semicolon then Synced(next) else SyncStuck(SyncSpins)
    else Synced(next)
  }

  /**
   * The recovery block of every binary level: `synchronize`, parse an
   * `expression` again, and return the errors so far followed by any errors
   * of that second parse. The result is an error whatever the second parse gives.
   */
  function Recover(fuel: nat, ts: seq<Token>, pos: nat, errors: Errors): (r: Outcome<Expression>)
    requires EndsWithEof(ts) && CursorOk(ts, pos)
    ensures r.Returns? ==> pos <= r.next && CursorOk(ts, r.next)
    ensures r.Returns? ==> r.result.Err? && |errors| <= |r.result.errors| && r.result.errors[..|errors|] == errors
    decreases fuel, |ts| - pos, 0
  {
    match Synchronize(ts, pos)
    case SyncStuck(halt) => Stuck(halt)
    case Synced(next) =>
      if fuel == 0 then Stuck(OutOfFuel)
      else
        match Expression(fuel - 1, ts, next)
        case Stuck(halt) => Stuck(halt)
        case Returns(Ok(_), after) => Returns(Err(errors), after)
        case Returns(Err(more), after) => Returns(Err(errors + more), after)
  }

  /** `expression` (and `parse`): the loosest level, equality. */
  function Expression(fuel: nat, ts: seq<Token>, pos: nat): (r: Outcome<Expression>)
    requires EndsWithEof(ts) && CursorOk(ts, pos)
    ensures r.Returns? ==> pos <= r.next && CursorOk(ts, r.next)
    ensures r.Returns? && r.result.Ok? ==> pos < r.next
    ensures r.Returns? && r.result.Err? ==> |r.result.errors| > 0
    decreases fuel, |ts| - pos, 10
  {
    Binary(fuel, ts, pos, EqualityLevel)
  }

  /**
   * `equality`, `comparison`, `term` and `factor`: an operand from the next
   * level; on an error, recovery; otherwise the left-folding operator loop.
   */
  function Binary(fuel: nat, ts: seq<Token>, pos: nat, level: Level): (r: Outcome<Expression>)
    requires EndsWithEof(ts) && CursorOk(ts, pos)
    ensures r.Returns? ==> pos <= r.next && CursorOk(ts, r.next)
    ensures r.Returns? && r.result.Ok? ==> pos < r.next
    ensures r.Returns? && r.result.Err? ==> |r.result.errors| > 0
    decreases fuel, |ts| - pos, 2 * Height(level) + 1
  {
    match Operand(fuel, ts, pos, level)
    case Stuck(halt) => Stuck(halt)
    case Returns(Err(errors), next) => Recover(fuel, ts, next, errors)
    case Returns(Ok(left), next) => BinaryLoop(fuel, ts, next, level, left)
  }

  /** The operand of a level: the next level, or `unary` below `factor`. */
  function Operand(fuel: nat, ts: seq<Token>, pos: nat, level: Level): (r: Outcome<Expression>)
    requires EndsWithEof(ts) && CursorOk(ts, pos)
    ensures r.Returns? ==> pos <= r.next && CursorOk(ts, r.next)
    ensures r.Returns? && r.result.Ok? ==> pos < r.next
    ensures r.Returns? && r.result.Err? ==> |r.result.errors| > 0
    decreases fuel, |ts| - pos, 2 * Height(level)
  {
    if level == FactorLevel then Unary(fuel, ts, pos) else Binary(fuel, ts, pos, Tighter(level))
  }

  /**
   * The `while check_and_consume(..)` loop of a level: while an operator of
   * the level is next, take it and an operand, and fold them into `left`.
   * An error in an operand is returned as it is (the `?` operator).
   */
  function BinaryLoop(fuel: nat, ts: seq<Token>, pos: nat, level: Level, left: Expression): (r: Outcome<Expression>)
    requires EndsWithEof(ts) && CursorOk(ts, pos)
    ensures r.Returns? ==> pos <= r.next && CursorOk(ts, r.next)
    ensures r.Returns? && r.result.Err? ==> |r.result.errors| > 0
    decreases fuel, |ts| - pos, 2 * Height(level)
  {
    if Matches(ts, pos, Operators(level)) then
      match Operand(fuel, ts, pos + 1, level)
      case Stuck(halt) => Stuck(halt)
      case Returns(Err(errors), next) => Returns(Err(errors), next)
      case Returns(Ok(right), next) => BinaryLoop(fuel, ts, next, level, Ast.Expression.Binary(left, ts[pos], right))
    else
      Returns(Ok(left), pos)
  }

  /** `unary`: `!` or `-` and, recursively, a unary expression; otherwise `primary`. */
  function Unary(fuel: nat, ts: seq<Token>, pos: nat): (r: Outcome<Expression>)
    requires EndsWithEof(ts) && CursorOk(ts, pos)
    ensures r.Returns? ==> pos <= r.next && CursorOk(ts, r.next)
    ensures r.Returns? && r.result.Ok? ==> pos < r.next
    ensures r.Returns? && r.result.Err? ==> |r.result.errors| > 0
    decreases fuel, |ts| - pos, 1
  {
    if Matches(ts, pos, [Bang, Minus]) then
      match Unary(fuel, ts, pos + 1)
      case Stuck(halt) => Stuck(halt)
      case Returns(Err(errors), next) => Returns(Err(errors), next)
      case Returns(Ok(right), next) => Returns(Ok(Ast.Expression.Unary(ts[pos], right)), next)
    else
      Primary(fuel, ts, pos)
  }

  /**
   * `primary`: `false`, `true`, `nil`, a number or a string is a `Literal`;
   * `(` starts a `Grouping` that must end with `)`; anything else is an
   * `UnexpectedToken` error on the token under the cursor.
   */
  function Primary(fuel: nat, ts: seq<Token>, pos: nat): (r: Outcome<Expression>)
    requires EndsWithEof(ts) && CursorOk(ts, pos)
    ensures r.Returns? ==> pos <= r.next && CursorOk(ts, r.next)
    ensures r.Returns? && r.result.Ok? ==> pos < r.next
    ensures r.Returns? && r.result.Err? ==> |r.result.errors| > 0
    decreases fuel, |ts| - pos, 0
  {
    if Matches(ts, pos, [False]) || Matches(ts, pos, [True]) || Matches(ts, pos, [Nil])
       || Matches(ts, pos, [Number, String]) then
      Returns(Ok(Literal(ts[pos])), pos + 1)
    else if Matches(ts, pos, [LeftParen]) then
      match Expression(fuel, ts, pos + 1)
      case Stuck(halt) => Stuck(halt)
      case Returns(Err(errors), next) => Returns(Err(errors), next)
      case Returns(Ok(inner), next) =>
        ConsumeCursor(ts, next, RightParen);
        match Consume(ts, next, RightParen)
        case Stuck(halt) => Stuck(halt)
        case Returns(Err(errors), after) => Returns(Err(errors), after)
        case Returns(Ok(_), after) => Returns(Ok(Grouping(inner)), after)
    else
      Returns(Err([UnexpectedToken(ts[pos])]), pos)
  }

  /**
   * One round of the operator loop: when an operator of the level is next
   * and the loop returns, the operand after the operator returns; on an
   * error that error is the loop's result, otherwise the loop goes on from
   * after the operand with the operator folded into `left`.
   */
  lemma LoopRound(fuel: nat, ts: seq<Token>, pos: nat, level: Level, left: Expression)
    requires EndsWithEof(ts) && CursorOk(ts, pos) && Matches(ts, pos, Operators(level))
    requires BinaryLoop(fuel, ts, pos, level, left).Returns?
    ensures CursorOk(ts, pos + 1) && Operand(fuel, ts, pos + 1, level).Returns?
    ensures var o := Operand(fuel, ts, pos + 1, level);
      && (o.result.Err? ==> BinaryLoop(fuel, ts, pos, level, left) == Returns(Err(o.result.errors), o.next))
      && (o.result.Ok? ==>
            BinaryLoop(fuel, ts, pos, level, left) == BinaryLoop(fuel, ts, o.next, level, Ast.Expression.Binary(left, ts[pos], o.result.value)))
  {
  }

  /**
   * The start of a level: when it returns, its operand returns; an error
   * there goes to recovery, a tree starts the operator loop.
   */
  lemma BinaryStart(fuel: nat, ts: seq<Token>, pos: nat, level: Level)
    requires EndsWithEof(ts) && CursorOk(ts, pos)
    requires Binary(fuel, ts, pos, level).Returns?
    ensures Operand(fuel, ts, pos, level).Returns?
    ensures var o := Operand(fuel, ts, pos, level);
      && (o.result.Err? ==> Recover(fuel, ts, o.next, o.result.errors) == Binary(fuel, ts, pos, level))
      && (o.result.Ok? ==> BinaryLoop(fuel, ts, o.next, level, o.result.value) == Binary(fuel, ts, pos, level))
  {
  }

  /** The end of the operator loop: with no operator of the level next, the loop returns `left` where it stands. */
  lemma LoopEnd(fuel: nat, ts: seq<Token>, pos: nat, level: Level, left: Expression)
    requires EndsWithEof(ts) && CursorOk(ts, pos) && !Matches(ts, pos, Operators(level))
    ensures BinaryLoop(fuel, ts, pos, level, left) == Returns(Ok(left), pos)
  {
  }

  /**
   * A prefix operator: when `unary` returns, so does the unary expression
   * after the operator; its error is the result, and its tree is the operand.
   */
  lemma UnaryRound(fuel: nat, ts: seq<Token>, pos: nat)
    requires EndsWithEof(ts) && CursorOk(ts, pos) && Matches(ts, pos, [Bang, Minus])
    requires Unary(fuel, ts, pos).Returns?
    ensures CursorOk(ts, pos + 1)
    ensures var inner := Unary(fuel, ts, pos + 1);
      && inner.Returns?
      && (inner.result.Err? ==> Unary(fuel, ts, pos) == Returns(Err(inner.result.errors), inner.next))
      && (inner.result.Ok? ==>
            Unary(fuel, ts, pos) == Returns(Ok(Ast.Expression.Unary(ts[pos], inner.result.value)), inner.next))
  {
  }

  /**
   * A grouping: when `primary` returns after `(`, so does the expression
   * inside; its error is the result; after its tree comes `consume` of `)`,
   * whose error is the result. A tree means the `)` came right after.
   */
  lemma GroupingRound(fuel: nat, ts: seq<Token>, pos: nat)
    requires EndsWithEof(ts) && CursorOk(ts, pos) && Matches(ts, pos, [LeftParen])
    requires Primary(fuel, ts, pos).Returns?
    ensures CursorOk(ts, pos + 1)
    ensures var inner := Expression(fuel, ts, pos + 1);
      && inner.Returns?
      && (inner.result.Err? ==> Primary(fuel, ts, pos) == Returns(Err(inner.result.errors), inner.next))
      && (inner.result.Ok? ==>
            var close := Consume(ts, inner.next, RightParen);
            && close.Returns?
            && (close.result.Err? ==> Primary(fuel, ts, pos) == Returns(Err(close.result.errors), close.next))
            && (close.result.Ok? ==> Primary(fuel, ts, pos) == Returns(Ok(Grouping(inner.result.value)), close.next)))
    ensures var inner := Expression(fuel, ts, pos + 1);
      Primary(fuel, ts, pos).result.Ok? ==>
        && inner.Returns? && inner.result.Ok?
        && inner.next < |ts| && ts[inner.next].kind == RightParen
        && Primary(fuel, ts, pos) == Returns(Ok(Grouping(inner.result.value)), inner.next + 1)
  {
  }

  /** `parse` on a fresh parser: an expression from the first token. */
  function Parse(fuel: nat, ts: seq<Token>): (r: Outcome<Expression>)
    requires EndsWithEof(ts)
    ensures r.Returns? ==> CursorOk(ts, r.next)
    ensures r.Returns? && r.result.Ok? ==> 0 < r.next
    ensures r.Returns? && r.result.Err? ==> |r.result.errors| > 0
  {
    Expression(fuel, ts, 0)
  }
}
