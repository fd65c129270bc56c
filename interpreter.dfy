/**
 * The parser as the object it is: a cursor `current` over a fixed token
 * list. Every method is proved to return the result and leave the cursor
 * that module Parsing defines. Each recursive method takes a ghost `fuel`
 * and requires that the specification returns with that fuel: the methods
 * are proved for the inputs on which the parser returns.
 */
module Interpreters {

  import opened TokenTypes
  import opened Tokens
  import Ast
  import opened Parsing

  class Interpreter {
    const tokens: seq<Token>
    var current: nat

    constructor (tokens: seq<Token>)
      ensures this.tokens == tokens && current == 0
      ensures EndsWithEof(tokens) ==> Valid()
    {
      this.tokens := tokens;
      current := 0;
    }

    /** The token list ends with `Eof` and the cursor has not passed the first `Eof`. */
    predicate Valid()
      reads this
    {
      EndsWithEof(tokens) && CursorOk(tokens, current)
    }

    method Parse(ghost fuel: nat) returns (r: Result<Ast.Expression>)
      requires Valid() && Parsing.Expression(fuel, tokens, current).Returns?
      modifies this
      ensures Valid() && Returns(r, current) == old(Parsing.Expression(fuel, tokens, current))
      decreases fuel, |tokens| - current, 11
    {
      r := Expression(fuel);
    }

    method Expression(ghost fuel: nat) returns (r: Result<Ast.Expression>)
      requires Valid() && Parsing.Expression(fuel, tokens, current).Returns?
      modifies this
      ensures Valid() && Returns(r, current) == old(Parsing.Expression(fuel, tokens, current))
      decreases fuel, |tokens| - current, 10
    {
      r := Equality(fuel);
    }

    method Equality(ghost fuel: nat) returns (r: Result<Ast.Expression>)
      requires Valid() && Binary(fuel, tokens, current, EqualityLevel).Returns?
      modifies this
      ensures Valid() && Returns(r, current) == old(Binary(fuel, tokens, current, EqualityLevel))
      decreases fuel, |tokens| - current, 9
    {
      BinaryStart(fuel, tokens, current, EqualityLevel);
      var expr := Comparison(fuel);
      if expr.Err? {
        r := Recover(fuel, expr.errors);
        return;
      }
      r := EqualityLoop(fuel, expr.value);
    }

    /** The `while check_and_consume(..)` loop of `equality`, folding each operator and operand into `left`. */
    method EqualityLoop(ghost fuel: nat, left: Ast.Expression) returns (r: Result<Ast.Expression>)
      requires Valid() && BinaryLoop(fuel, tokens, current, EqualityLevel, left).Returns?
      modifies this
      ensures Valid() && Returns(r, current) == old(BinaryLoop(fuel, tokens, current, EqualityLevel, left))
      decreases fuel, |tokens| - current, 8
    {
      ghost var goal := BinaryLoop(fuel, tokens, current, EqualityLevel, left);
      var res := left;
      ghost var before := current;
      var more := CheckAndConsume([BangEqual, EqualEqual]);
      while more
        invariant Valid() && CursorOk(tokens, before)
        invariant more == Matches(tokens, before, Operators(EqualityLevel))
        invariant current == if more then before + 1 else before
        invariant BinaryLoop(fuel, tokens, before, EqualityLevel, res) == goal
        decreases |tokens| - current
      {
        LoopRound(fuel, tokens, before, EqualityLevel, res);
        var operator := Previous();
        var right := Comparison(fuel);
        if right.Err? {
          return Err(right.errors);
        }
        res := Ast.Binary(res, operator, right.value);
        before := current;
        more := CheckAndConsume([BangEqual, EqualEqual]);
      }
      LoopEnd(fuel, tokens, before, EqualityLevel, res);
      r := Ok(res);
    }

    method Comparison(ghost fuel: nat) returns (r: Result<Ast.Expression>)
      requires Valid() && Binary(fuel, tokens, current, ComparisonLevel).Returns?
      modifies this
      ensures Valid() && Returns(r, current) == old(Binary(fuel, tokens, current, ComparisonLevel))
      decreases fuel, |tokens| - current, 7
    {
      BinaryStart(fuel, tokens, current, ComparisonLevel);
      var expr := Term(fuel);
      if expr.Err? {
        r := Recover(fuel, expr.errors);
        return;
      }
      r := ComparisonLoop(fuel, expr.value);
    }

    /** The `while check_and_consume(..)` loop of `comparison`, folding each operator and operand into `left`. */
    method ComparisonLoop(ghost fuel: nat, left: Ast.Expression) returns (r: Result<Ast.Expression>)
      requires Valid() && BinaryLoop(fuel, tokens, current, ComparisonLevel, left).Returns?
      modifies this
      ensures Valid() && Returns(r, current) == old(BinaryLoop(fuel, tokens, current, ComparisonLevel, left))
      decreases fuel, |tokens| - current, 6
    {
      ghost var goal := BinaryLoop(fuel, tokens, current, ComparisonLevel, left);
      var res := left;
      ghost var before := current;
      var more := CheckAndConsume([Greater, GreaterEqual, Less, LessEqual]);
      while more
        invariant Valid() && CursorOk(tokens, before)
        invariant more == Matches(tokens, before, Operators(ComparisonLevel))
        invariant current == if more then before + 1 else before
        invariant BinaryLoop(fuel, tokens, before, ComparisonLevel, res) == goal
        decreases |tokens| - current
      {
        LoopRound(fuel, tokens, before, ComparisonLevel, res);
        var operator := Previous();
        var right := Term(fuel);
        if right.Err? {
          return Err(right.errors);
        }
        res := Ast.Binary(res, operator, right.value);
        before := current;
        more := CheckAndConsume([Greater, GreaterEqual, Less, LessEqual]);
      }
      LoopEnd(fuel, tokens, before, ComparisonLevel, res);
      r := Ok(res);
    }

    method Term(ghost fuel: nat) returns (r: Result<Ast.Expression>)
      requires Valid() && Binary(fuel, tokens, current, TermLevel).Returns?
      modifies this
      ensures Valid() && Returns(r, current) == old(Binary(fuel, tokens, current, TermLevel))
      decreases fuel, |tokens| - current, 5
    {
      BinaryStart(fuel, tokens, current, TermLevel);
      var expr := Factor(fuel);
      if expr.Err? {
        r := Recover(fuel, expr.errors);
        return;
      }
      r := TermLoop(fuel, expr.value);
    }

    /** The `while check_and_consume(..)` loop of `term`, folding each operator and operand into `left`. */
    method TermLoop(ghost fuel: nat, left: Ast.Expression) returns (r: Result<Ast.Expression>)
      requires Valid() && BinaryLoop(fuel, tokens, current, TermLevel, left).Returns?
      modifies this
      ensures Valid() && Returns(r, current) == old(BinaryLoop(fuel, tokens, current, TermLevel, left))
      decreases fuel, |tokens| - current, 4
    {
      ghost var goal := BinaryLoop(fuel, tokens, current, TermLevel, left);
      var res := left;
      ghost var before := current;
      var more := CheckAndConsume([Minus, Plus]);
      while more
        invariant Valid() && CursorOk(tokens, before)
        invariant more == Matches(tokens, before, Operators(TermLevel))
        invariant current == if more then before + 1 else before
        invariant BinaryLoop(fuel, tokens, before, TermLevel, res) == goal
        decreases |tokens| - current
      {
        LoopRound(fuel, tokens, before, TermLevel, res);
        var operator := Previous();
        var right := Factor(fuel);
        if right.Err? {
          return Err(right.errors);
        }
        res := Ast.Binary(res, operator, right.value);
        before := current;
        more := CheckAndConsume([Minus, Plus]);
      }
      LoopEnd(fuel, tokens, before, TermLevel, res);
      r := Ok(res);
    }

    method Factor(ghost fuel: nat) returns (r: Result<Ast.Expression>)
      requires Valid() && Binary(fuel, tokens, current, FactorLevel).Returns?
      modifies this
      ensures Valid() && Returns(r, current) == old(Binary(fuel, tokens, current, FactorLevel))
      decreases fuel, |tokens| - current, 3
    {
      BinaryStart(fuel, tokens, current, FactorLevel);
      var expr := Unary(fuel);
      if expr.Err? {
        r := Recover(fuel, expr.errors);
        return;
      }
      r := FactorLoop(fuel, expr.value);
    }

    /** The `while check_and_consume(..)` loop of `factor`, folding each operator and operand into `left`. */
    method FactorLoop(ghost fuel: nat, left: Ast.Expression) returns (r: Result<Ast.Expression>)
      requires Valid() && BinaryLoop(fuel, tokens, current, FactorLevel, left).Returns?
      modifies this
      ensures Valid() && Returns(r, current) == old(BinaryLoop(fuel, tokens, current, FactorLevel, left))
      decreases fuel, |tokens| - current, 2
    {
      ghost var goal := BinaryLoop(fuel, tokens, current, FactorLevel, left);
      var res := left;
      ghost var before := current;
      var more := CheckAndConsume([Slash, Star]);
      while more
        invariant Valid() && CursorOk(tokens, before)
        invariant more == Matches(tokens, before, Operators(FactorLevel))
        invariant current == if more then before + 1 else before
        invariant BinaryLoop(fuel, tokens, before, FactorLevel, res) == goal
        decreases |tokens| - current
      {
        LoopRound(fuel, tokens, before, FactorLevel, res);
        var operator := Previous();
        var right := Unary(fuel);
        if right.Err? {
          return Err(right.errors);
        }
        res := Ast.Binary(res, operator, right.value);
        before := current;
        more := CheckAndConsume([Slash, Star]);
      }
      LoopEnd(fuel, tokens, before, FactorLevel, res);
      r := Ok(res);
    }

    /**
     * The recovery block the four levels repeat: skip ahead with
     * `synchronize`, parse an expression again, and report the errors so far
     * followed by every error of that second parse.
     */
    method Recover(ghost fuel: nat, errors: Errors) returns (r: Result<Ast.Expression>)
      requires Valid() && Parsing.Recover(fuel, tokens, current, errors).Returns?
      modifies this
      ensures Valid() && Returns(r, current) == old(Parsing.Recover(fuel, tokens, current, errors))
      decreases fuel, |tokens| - current, 0
    {
      var all := errors;
      Synchronize();
      var right := Expression(fuel - 1);
      if right.Err? {
        for i := 0 to |right.errors|
          invariant all == errors + right.errors[..i]
        {
          all := all + [right.errors[i]];
        }
        assert right.errors[..|right.errors|] == right.errors;
      }
      r := Err(all);
    }

    method Unary(ghost fuel: nat) returns (r: Result<Ast.Expression>)
      requires Valid() && Parsing.Unary(fuel, tokens, current).Returns?
      modifies this
      ensures Valid() && Returns(r, current) == old(Parsing.Unary(fuel, tokens, current))
      decreases fuel, |tokens| - current, 1
    {
      var prefixed := CheckAndConsume([Bang, Minus]);
      if prefixed {
        UnaryRound(fuel, tokens, current - 1);
        var operator := Previous();
        var right := Unary(fuel);
        if right.Err? {
          return Err(right.errors);
        }
        return Ok(Ast.Unary(operator, right.value));
      }
      r := Primary(fuel);
    }

    method Primary(ghost fuel: nat) returns (r: Result<Ast.Expression>)
      requires Valid() && Parsing.Primary(fuel, tokens, current).Returns?
      modifies this
      ensures Valid() && Returns(r, current) == old(Parsing.Primary(fuel, tokens, current))
      decreases fuel, |tokens| - current, 0
    {
      var matched := CheckAndConsume([False]);
      if matched {
        return Ok(Ast.Literal(Previous()));
      }
      matched := CheckAndConsume([True]);
      if matched {
        return Ok(Ast.Literal(Previous()));
      }
      matched := CheckAndConsume([Nil]);
      if matched {
        return Ok(Ast.Literal(Previous()));
      }
      matched := CheckAndConsume([Number, String]);
      if matched {
        return Ok(Ast.Literal(Previous()));
      }
      matched := CheckAndConsume([LeftParen]);
      if matched {
        GroupingRound(fuel, tokens, current - 1);
        var expr := Expression(fuel);
        if expr.Err? {
          return Err(expr.errors);
        }
        var closed := Consume(RightParen);
        if closed.Err? {
          return Err(closed.errors);
        }
        return Ok(Ast.Grouping(expr.value));
      }
      r := Err([UnexpectedToken(Peek())]);
    }

    /** `match` in the book: consumes the token under the cursor when some kind in `kinds` passes `Check`. */
    method CheckAndConsume(kinds: seq<TokenType>) returns (b: bool)
      requires Valid()
      modifies this`current
      ensures Valid()
      ensures b == Matches(tokens, old(current), kinds)
      ensures current == if b then old(current) + 1 else old(current)
    {
      for i := 0 to |kinds|
        invariant current == old(current)
        invariant forall j :: 0 <= j < i ==> !Check(kinds[j])
      {
        if Check(kinds[i]) {
          var _ := Advance();
          return true;
        }
      }
      return false;
    }

    function Check(kind: TokenType): (b: bool)
      reads this
      requires Valid()
      ensures b == Parsing.Check(tokens, current, kind)
    {
      if IsAtEnd() then false else Peek().kind == kind
    }

    method Consume(expected: TokenType) returns (r: Result<Token>)
      requires Valid() && Parsing.Consume(tokens, current, expected).Returns?
      modifies this`current
      ensures Valid() && Returns(r, current) == old(Parsing.Consume(tokens, current, expected))
    {
      if Peek().kind == expected {
        var t := Advance();
        return Ok(t);
      }
      r := Err([MissingToken(expected)]);
    }

    /**
     * One `advance`, then the loop `while !is_at_end()`. That loop's body
     * changes nothing: it returns in its first round when the token just
     * passed is `;`, and otherwise never stops, which the precondition
     * excludes; so it is written here as one round. After it the cursor is
     * at `Eof`, where no keyword of the `match` can be.
     */
    method Synchronize()
      requires Valid() && Parsing.Synchronize(tokens, current).Synced?
      modifies this`current
      ensures Valid() && current == old(Parsing.Synchronize(tokens, current)).next
    {
      var _ := Advance();
      if !IsAtEnd() {
        if Previous().kind == Semicolon {
          return;
        }
        assert false;
      }
      match Peek().kind {
        case Class | Fun | Var | For | If | While | Print | Return =>
          assert false;
          return;
        case _ =>
      }
      var _ := Advance();
    }

    /** Moves one token on unless at `Eof`, and returns the token just passed. */
    method Advance() returns (t: Token)
      requires Valid() && AdvancePos(tokens, current) > 0
      modifies this`current
      ensures Valid() && current == old(AdvancePos(tokens, current))
      ensures t == tokens[current - 1]
    {
      if !IsAtEnd() {
        current := current + 1;
      }
      t := Previous();
    }

    /** The token under the cursor; the source unwraps, so the cursor must be inside the list. */
    function Peek(): (t: Token)
      reads this
      requires current < |tokens|
      ensures t == tokens[current]
    {
      tokens[current]
    }

    /** The token before the cursor; the source panics when the cursor is at 0. */
    function Previous(): (t: Token)
      reads this
      requires 0 < current <= |tokens|
      ensures t == tokens[current - 1]
    {
      tokens[current - 1]
    }

    function IsAtEnd(): (b: bool)
      reads this
      requires current < |tokens|
      ensures b == AtEnd(tokens, current)
    {
      Peek().kind == Eof
    }
  }
}
