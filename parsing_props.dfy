/**
 * Properties of the parser: what a successful parse is in terms of the
 * grammar (the tokens it consumed, read back from the tree, and precedence
 * with left association), how the cursor moves, and the inputs on which the
 * parser does not return.
 */
module ParsingProps {

  import opened Options
  import opened TokenTypes
  import opened Tokens
  import Ast
  import opened Parsing

  // ---------------------------------------------------------------------
  // The grammar a successful parse follows

  /** A parenthesis token with its lexeme and line dropped: `Grouping` does not keep those. */
  function Erase(t: Token): Token {
    if t.kind == LeftParen || t.kind == RightParen then Token(t.kind, "", None, 0) else t
  }

  /** `Erase` applied to every token of `s`. */
  function EraseAll(s: seq<Token>): seq<Token> {
    seq(|s|, i requires 0 <= i < |s| => Erase(s[i]))
  }

  /** The tokens an expression stands for, left to right; a grouping stands for its parentheses too. */
  function Yield(e: Ast.Expression): seq<Token> {
    match e
    case Binary(left, operator, right) => Yield(left) + [operator] + Yield(right)
    case Unary(operator, right) => [operator] + Yield(right)
    case Grouping(inner) => [Erase(Token(LeftParen, "", None, 0))] + Yield(inner) + [Erase(Token(RightParen, "", None, 0))]
    case Literal(value) => [value]
    case _ => []
  }

  /** The `Height` of the level whose operators include `kind`; 0 when `kind` is not a binary operator. */
  function OperatorHeight(kind: TokenType): nat {
    if kind in Operators(EqualityLevel) then Height(EqualityLevel)
    else if kind in Operators(ComparisonLevel) then Height(ComparisonLevel)
    else if kind in Operators(TermLevel) then Height(TermLevel)
    else if kind in Operators(FactorLevel) then Height(FactorLevel)
    else 0
  }

  /** How loosely an expression binds at its top: its operator's level, or 0 when it is not a binary expression. */
  function Binding(e: Ast.Expression): nat {
    if e.Binary? then OperatorHeight(e.operator.kind) else 0
  }

  /**
   * The trees of the expression grammar: a binary operator's left operand
   * binds no more loosely than it (left association), its right operand
   * strictly more tightly; a prefix operator applies to an operand that is
   * not binary; literals are `false`, `true`, `nil`, numbers and strings.
   */
  predicate WellPrecedenced(e: Ast.Expression) {
    match e
    case Binary(left, operator, right) =>
      && 0 < OperatorHeight(operator.kind)
      && Binding(left) <= OperatorHeight(operator.kind) && Binding(right) < OperatorHeight(operator.kind)
      && WellPrecedenced(left) && WellPrecedenced(right)
    case Unary(operator, right) =>
      (operator.kind == Bang || operator.kind == Minus) && Binding(right) == 0 && WellPrecedenced(right)
    case Grouping(inner) => WellPrecedenced(inner)
    case Literal(value) => value.kind in {False, True, Nil, Number, String}
    case _ => false
  }

  /** Reading back the tokens consumed from `pos` to `mid` and from `mid` to `next`. */
  lemma EraseAllSplit(ts: seq<Token>, pos: nat, mid: nat, next: nat)
    requires pos <= mid <= next <= |ts|
    ensures EraseAll(ts[pos..next]) == EraseAll(ts[pos..mid]) + EraseAll(ts[mid..next])
  {
    var a, b, c := EraseAll(ts[pos..next]), EraseAll(ts[pos..mid]), EraseAll(ts[mid..next]);
    assert forall i | 0 <= i < |a| :: a[i] == (b + c)[i];
  }

  /** Reading back the first token consumed. */
  lemma EraseAllCons(ts: seq<Token>, pos: nat, next: nat)
    requires pos < next <= |ts|
    ensures EraseAll(ts[pos..next]) == [Erase(ts[pos])] + EraseAll(ts[pos + 1..next])
  {
    var a, c := EraseAll(ts[pos..next]), EraseAll(ts[pos + 1..next]);
    assert forall i | 0 <= i < |a| :: a[i] == ([Erase(ts[pos])] + c)[i];
  }

  /** A binary operator's height is that of its level, and a kind with a level's height is one of its operators. */
  lemma OperatorsHeight(level: Level, kind: TokenType)
    ensures kind in Operators(level) <==> OperatorHeight(kind) == Height(level)
  {
  }

  /** No binary operator of height 1 to `height` is under the cursor. */
  predicate NoOperatorUpTo(ts: seq<Token>, pos: nat, height: nat)
    requires pos < |ts|
  {
    OperatorHeight(ts[pos].kind) == 0 || height < OperatorHeight(ts[pos].kind)
  }

  /**
   * A successful parse reads the grammar back: the tokens consumed are the
   * yield of the tree (parentheses up to their text), the tree is well
   * precedenced, it binds no more loosely than equality, and the parse
   * stopped where no binary operator is next, so no longer span would do.
   */
  lemma {:induction false} ExpressionSound(fuel: nat, ts: seq<Token>, pos: nat)
    requires EndsWithEof(ts) && CursorOk(ts, pos)
    requires Expression(fuel, ts, pos).Returns? && Expression(fuel, ts, pos).result.Ok?
    ensures var r := Expression(fuel, ts, pos);
      && Yield(r.result.value) == EraseAll(ts[pos..r.next])
      && WellPrecedenced(r.result.value) && Binding(r.result.value) <= Height(EqualityLevel)
      && NoOperatorUpTo(ts, r.next, Height(EqualityLevel))
    decreases fuel, |ts| - pos, 11
  {
    BinarySound(fuel, ts, pos, EqualityLevel);
  }

  lemma {:induction false} BinarySound(fuel: nat, ts: seq<Token>, pos: nat, level: Level)
    requires EndsWithEof(ts) && CursorOk(ts, pos)
    requires Binary(fuel, ts, pos, level).Returns? && Binary(fuel, ts, pos, level).result.Ok?
    ensures var r := Binary(fuel, ts, pos, level);
      && Yield(r.result.value) == EraseAll(ts[pos..r.next])
      && WellPrecedenced(r.result.value) && Binding(r.result.value) <= Height(level)
      && NoOperatorUpTo(ts, r.next, Height(level))
    decreases fuel, |ts| - pos, 2 * Height(level) + 2
  {
    BinaryMaximal(fuel, ts, pos, level);
    var operand := Operand(fuel, ts, pos, level);
    OperandSound(fuel, ts, pos, level);
    var left := operand.result.value;
    LoopSound(fuel, ts, operand.next, level, left);
    var r := Binary(fuel, ts, pos, level);
    EraseAllSplit(ts, pos, operand.next, r.next);
  }

  /**
   * A level that returns a tree stops only where no operator of it or of a
   * tighter level is next: it has consumed as much as its grammar allows.
   */
  lemma {:induction false} BinaryMaximal(fuel: nat, ts: seq<Token>, pos: nat, level: Level)
    requires EndsWithEof(ts) && CursorOk(ts, pos)
    requires Binary(fuel, ts, pos, level).Returns? && Binary(fuel, ts, pos, level).result.Ok?
    ensures NoOperatorUpTo(ts, Binary(fuel, ts, pos, level).next, Height(level))
    decreases fuel, |ts| - pos, 2 * Height(level) + 1
  {
    BinaryStart(fuel, ts, pos, level);
    var operand := Operand(fuel, ts, pos, level);
    OperandMaximal(fuel, ts, pos, level);
    LoopMaximal(fuel, ts, operand.next, level, operand.result.value);
  }

  /** The operand of a level stops where no operator of a tighter level is next. */
  lemma {:induction false} OperandMaximal(fuel: nat, ts: seq<Token>, pos: nat, level: Level)
    requires EndsWithEof(ts) && CursorOk(ts, pos)
    requires Operand(fuel, ts, pos, level).Returns? && Operand(fuel, ts, pos, level).result.Ok?
    ensures NoOperatorUpTo(ts, Operand(fuel, ts, pos, level).next, Height(level) - 1)
    decreases fuel, |ts| - pos, 2 * Height(level)
  {
    if level != FactorLevel {
      BinaryMaximal(fuel, ts, pos, Tighter(level));
    }
  }

  /** The operator loop, entered where no tighter operator is next, stops where no operator of the level is next either. */
  lemma {:induction false} LoopMaximal(fuel: nat, ts: seq<Token>, pos: nat, level: Level, left: Ast.Expression)
    requires EndsWithEof(ts) && CursorOk(ts, pos) && NoOperatorUpTo(ts, pos, Height(level) - 1)
    requires BinaryLoop(fuel, ts, pos, level, left).Returns? && BinaryLoop(fuel, ts, pos, level, left).result.Ok?
    ensures NoOperatorUpTo(ts, BinaryLoop(fuel, ts, pos, level, left).next, Height(level))
    decreases fuel, |ts| - pos, 2 * Height(level)
  {
    if Matches(ts, pos, Operators(level)) {
      LoopRound(fuel, ts, pos, level, left);
      var operand := Operand(fuel, ts, pos + 1, level);
      OperandMaximal(fuel, ts, pos + 1, level);
      LoopMaximal(fuel, ts, operand.next, level, Ast.Binary(left, ts[pos], operand.result.value));
    } else {
      OperatorsHeight(level, ts[pos].kind);
    }
  }

  lemma {:induction false} OperandSound(fuel: nat, ts: seq<Token>, pos: nat, level: Level)
    requires EndsWithEof(ts) && CursorOk(ts, pos)
    requires Operand(fuel, ts, pos, level).Returns? && Operand(fuel, ts, pos, level).result.Ok?
    ensures var r := Operand(fuel, ts, pos, level);
      && Yield(r.result.value) == EraseAll(ts[pos..r.next])
      && WellPrecedenced(r.result.value) && Binding(r.result.value) < Height(level)
    decreases fuel, |ts| - pos, 2 * Height(level) + 1
  {
    if level == FactorLevel {
      UnarySound(fuel, ts, pos);
    } else {
      BinarySound(fuel, ts, pos, Tighter(level));
    }
  }

  lemma {:induction false} LoopSound(fuel: nat, ts: seq<Token>, pos: nat, level: Level, left: Ast.Expression)
    requires EndsWithEof(ts) && CursorOk(ts, pos)
    requires WellPrecedenced(left) && Binding(left) <= Height(level)
    requires BinaryLoop(fuel, ts, pos, level, left).Returns? && BinaryLoop(fuel, ts, pos, level, left).result.Ok?
    ensures var r := BinaryLoop(fuel, ts, pos, level, left);
      && Yield(r.result.value) == Yield(left) + EraseAll(ts[pos..r.next])
      && WellPrecedenced(r.result.value) && Binding(r.result.value) <= Height(level)
    decreases fuel, |ts| - pos, 2 * Height(level) + 1
  {
    if Matches(ts, pos, Operators(level)) {
      LoopRoundSound(fuel, ts, pos, level, left);
    } else {
      assert ts[pos..pos] == [];
    }
  }

  /** One round of the operator loop, then the rest of the loop. */
  lemma {:induction false} LoopRoundSound(fuel: nat, ts: seq<Token>, pos: nat, level: Level, left: Ast.Expression)
    requires EndsWithEof(ts) && CursorOk(ts, pos) && Matches(ts, pos, Operators(level))
    requires WellPrecedenced(left) && Binding(left) <= Height(level)
    requires BinaryLoop(fuel, ts, pos, level, left).Returns? && BinaryLoop(fuel, ts, pos, level, left).result.Ok?
    ensures var r := BinaryLoop(fuel, ts, pos, level, left);
      && Yield(r.result.value) == Yield(left) + EraseAll(ts[pos..r.next])
      && WellPrecedenced(r.result.value) && Binding(r.result.value) <= Height(level)
    decreases fuel, |ts| - pos, 2 * Height(level)
  {
    LoopRound(fuel, ts, pos, level, left);
    var operand := Operand(fuel, ts, pos + 1, level);
    OperandSound(fuel, ts, pos + 1, level);
    var folded := FoldSound(ts, pos, operand.next, level, left, operand.result.value);
    LoopSound(fuel, ts, operand.next, level, folded);
    var r := BinaryLoop(fuel, ts, pos, level, left);
    ReadJoin(ts, pos, operand.next, r.next, Yield(left), Yield(folded), Yield(r.result.value));
  }

  /** The tree one round of the operator loop builds: the operator folded between `left` and the operand read after it. */
  lemma FoldSound(ts: seq<Token>, pos: nat, next: nat, level: Level, left: Ast.Expression, right: Ast.Expression)
    returns (folded: Ast.Expression)
    requires pos < next <= |ts| && ts[pos].kind in Operators(level)
    requires WellPrecedenced(left) && Binding(left) <= Height(level)
    requires Yield(right) == EraseAll(ts[pos + 1..next])
    requires WellPrecedenced(right) && Binding(right) < Height(level)
    ensures folded == Ast.Binary(left, ts[pos], right)
    ensures Yield(folded) == Yield(left) + EraseAll(ts[pos..next])
    ensures WellPrecedenced(folded) && Binding(folded) <= Height(level)
  {
    folded := Ast.Binary(left, ts[pos], right);
    FoldPrecedence(level, left, ts[pos], right);
    assert Erase(ts[pos]) == ts[pos];
    ReadCons(ts, pos, next, Yield(left), Yield(right));
  }

  /** Folding an operator of the level between a left operand that binds no more loosely and a right one that binds more tightly. */
  lemma FoldPrecedence(level: Level, left: Ast.Expression, operator: Token, right: Ast.Expression)
    requires operator.kind in Operators(level)
    requires WellPrecedenced(left) && Binding(left) <= Height(level)
    requires WellPrecedenced(right) && Binding(right) < Height(level)
    ensures WellPrecedenced(Ast.Binary(left, operator, right)) && Binding(Ast.Binary(left, operator, right)) <= Height(level)
  {
    OperatorsHeight(level, operator.kind);
  }

  /** Reading back one token kept as it is, in front of the tokens read after it. */
  lemma ReadCons(ts: seq<Token>, pos: nat, next: nat, prefix: seq<Token>, rest: seq<Token>)
    requires pos < next <= |ts| && Erase(ts[pos]) == ts[pos]
    requires rest == EraseAll(ts[pos + 1..next])
    ensures prefix + [ts[pos]] + rest == prefix + EraseAll(ts[pos..next])
  {
    EraseAllCons(ts, pos, next);
    assert prefix + [ts[pos]] + rest == prefix + ([ts[pos]] + rest);
  }

  /** Reading back the tokens from `pos` to `mid` and then those from `mid` to `next`. */
  lemma ReadJoin(ts: seq<Token>, pos: nat, mid: nat, next: nat, prefix: seq<Token>, first: seq<Token>, whole: seq<Token>)
    requires pos <= mid <= next <= |ts|
    requires first == prefix + EraseAll(ts[pos..mid])
    requires whole == first + EraseAll(ts[mid..next])
    ensures whole == prefix + EraseAll(ts[pos..next])
  {
    EraseAllSplit(ts, pos, mid, next);
    var a, b := EraseAll(ts[pos..mid]), EraseAll(ts[mid..next]);
    assert prefix + a + b == prefix + (a + b);
  }

  lemma {:induction false} UnarySound(fuel: nat, ts: seq<Token>, pos: nat)
    requires EndsWithEof(ts) && CursorOk(ts, pos)
    requires Unary(fuel, ts, pos).Returns? && Unary(fuel, ts, pos).result.Ok?
    ensures var r := Unary(fuel, ts, pos);
      && Yield(r.result.value) == EraseAll(ts[pos..r.next])
      && WellPrecedenced(r.result.value) && Binding(r.result.value) == 0
    decreases fuel, |ts| - pos, 2
  {
    if Matches(ts, pos, [Bang, Minus]) {
      UnaryRound(fuel, ts, pos);
      var inner := Unary(fuel, ts, pos + 1);
      UnarySound(fuel, ts, pos + 1);
      PrefixSound(ts, pos, inner.next, inner.result.value);
    } else {
      PrimarySound(fuel, ts, pos);
    }
  }

  /** A prefix operator applied to the unary expression read after it. */
  lemma PrefixSound(ts: seq<Token>, pos: nat, next: nat, right: Ast.Expression)
    requires pos < next <= |ts| && (ts[pos].kind == Bang || ts[pos].kind == Minus)
    requires Yield(right) == EraseAll(ts[pos + 1..next])
    requires WellPrecedenced(right) && Binding(right) == 0
    ensures Yield(Ast.Unary(ts[pos], right)) == EraseAll(ts[pos..next])
    ensures WellPrecedenced(Ast.Unary(ts[pos], right)) && Binding(Ast.Unary(ts[pos], right)) == 0
  {
    assert Erase(ts[pos]) == ts[pos];
    ReadCons(ts, pos, next, [], Yield(right));
    assert [] + [ts[pos]] + Yield(right) == [ts[pos]] + Yield(right);
  }

  lemma {:induction false} PrimarySound(fuel: nat, ts: seq<Token>, pos: nat)
    requires EndsWithEof(ts) && CursorOk(ts, pos)
    requires Primary(fuel, ts, pos).Returns? && Primary(fuel, ts, pos).result.Ok?
    ensures var r := Primary(fuel, ts, pos);
      && Yield(r.result.value) == EraseAll(ts[pos..r.next])
      && WellPrecedenced(r.result.value) && Binding(r.result.value) == 0
    decreases fuel, |ts| - pos, 1
  {
    if Matches(ts, pos, [False]) || Matches(ts, pos, [True]) || Matches(ts, pos, [Nil])
       || Matches(ts, pos, [Number, String]) {
      LiteralSound(fuel, ts, pos);
    } else {
      GroupSound(fuel, ts, pos);
    }
  }

  /** `false`, `true`, `nil`, a number or a string is read as itself. */
  lemma LiteralSound(fuel: nat, ts: seq<Token>, pos: nat)
    requires EndsWithEof(ts) && CursorOk(ts, pos)
    requires Matches(ts, pos, [False]) || Matches(ts, pos, [True]) || Matches(ts, pos, [Nil]) || Matches(ts, pos, [Number, String])
    ensures var r := Primary(fuel, ts, pos);
      && r == Returns(Ok(Ast.Literal(ts[pos])), pos + 1)
      && Yield(r.result.value) == EraseAll(ts[pos..r.next])
      && WellPrecedenced(r.result.value) && Binding(r.result.value) == 0
  {
    assert EraseAll(ts[pos..pos + 1]) == [ts[pos]];
  }

  /** A grouping is read as `(`, the expression inside, and `)`. */
  lemma {:induction false} GroupSound(fuel: nat, ts: seq<Token>, pos: nat)
    requires EndsWithEof(ts) && CursorOk(ts, pos) && Matches(ts, pos, [LeftParen])
    requires Primary(fuel, ts, pos).Returns? && Primary(fuel, ts, pos).result.Ok?
    ensures var r := Primary(fuel, ts, pos);
      && Yield(r.result.value) == EraseAll(ts[pos..r.next])
      && WellPrecedenced(r.result.value) && Binding(r.result.value) == 0
    decreases fuel, |ts| - pos, 0
  {
    GroupingRound(fuel, ts, pos);
    var inner := Expression(fuel, ts, pos + 1);
    ExpressionSound(fuel, ts, pos + 1);
    GroupingSound(ts, pos, inner.next, inner.result.value);
  }

  /** A parenthesised expression: `(`, the tokens of the expression inside, `)`. */
  lemma GroupingSound(ts: seq<Token>, pos: nat, close: nat, inner: Ast.Expression)
    requires pos < close < |ts| && ts[pos].kind == LeftParen && ts[close].kind == RightParen
    requires Yield(inner) == EraseAll(ts[pos + 1..close])
    requires WellPrecedenced(inner)
    ensures Yield(Ast.Grouping(inner)) == EraseAll(ts[pos..close + 1])
    ensures WellPrecedenced(Ast.Grouping(inner)) && Binding(Ast.Grouping(inner)) == 0
  {
    ReadGroup(ts, pos, close, Yield(inner));
  }

  /** Reading back `(`, the tokens `y` of the expression inside, and `)`. */
  lemma ReadGroup(ts: seq<Token>, pos: nat, close: nat, y: seq<Token>)
    requires pos < close < |ts| && ts[pos].kind == LeftParen && ts[close].kind == RightParen
    requires y == EraseAll(ts[pos + 1..close])
    ensures [Erase(Token(LeftParen, "", None, 0))] + y + [Erase(Token(RightParen, "", None, 0))] == EraseAll(ts[pos..close + 1])
  {
    var a, b := EraseAll(ts[pos..close + 1]), [Erase(Token(LeftParen, "", None, 0))] + y + [Erase(Token(RightParen, "", None, 0))];
    assert |a| == |b|;
    forall i | 0 <= i < |a|
      ensures a[i] == b[i]
    {
      if i == 0 {
        assert a[i] == Erase(ts[pos]);
      } else if i < |a| - 1 {
        assert a[i] == Erase(ts[pos + i]) == y[i - 1];
      } else {
        assert a[i] == Erase(ts[close]);
      }
    }
  }

  // ---------------------------------------------------------------------
  // How the cursor moves

  /** `is_at_end` holds at a valid cursor exactly on the first `Eof` of the list. */
  lemma AtEndIsFirstEof(ts: seq<Token>, pos: nat)
    requires CursorOk(ts, pos)
    ensures AtEnd(ts, pos) <==> pos == FirstEof(ts)
  {
  }

  /** `check_and_consume` answers true exactly when `check` passes for one of the kinds it is given. */
  lemma MatchesSomeCheck(ts: seq<Token>, pos: nat, kinds: seq<TokenType>)
    requires pos < |ts|
    ensures Matches(ts, pos, kinds) <==> exists i :: 0 <= i < |kinds| && Check(ts, pos, kinds[i])
  {
    if Matches(ts, pos, kinds) {
      var i :| 0 <= i < |kinds| && kinds[i] == ts[pos].kind;
      assert Check(ts, pos, kinds[i]);
    }
  }

  /**
   * `check_and_consume` never consumes `Eof`: a match is not at `Eof`, the
   * cursor after it is still valid, and `check` is false at `Eof` whatever
   * kind is asked for, `Eof` included.
   */
  lemma MatchesNotEof(ts: seq<Token>, pos: nat, kinds: seq<TokenType>)
    requires EndsWithEof(ts) && CursorOk(ts, pos)
    ensures Matches(ts, pos, kinds) ==> ts[pos].kind != Eof && CursorOk(ts, pos + 1)
    ensures AtEnd(ts, pos) ==> !Matches(ts, pos, kinds) && !Check(ts, pos, Eof)
  {
  }

  /** `advance` moves exactly one token, except at `Eof` where it stays, and keeps the cursor valid. */
  lemma AdvanceFacts(ts: seq<Token>, pos: nat)
    requires EndsWithEof(ts) && CursorOk(ts, pos)
    ensures AdvancePos(ts, pos) == pos <==> AtEnd(ts, pos)
    ensures AdvancePos(ts, pos) == pos + 1 <==> !AtEnd(ts, pos)
    ensures CursorOk(ts, AdvancePos(ts, pos))
  {
  }

  /**
   * `consume(k)`: a different kind gives `[MissingToken(k)]` with the cursor
   * unchanged; the kind `k` away from `Eof` is taken, one token on. Asked
   * for `Eof` at `Eof`, `advance` stays put and the token handed back is
   * the one before the cursor, which panics on the first token.
   */
  lemma ConsumeFacts(ts: seq<Token>, pos: nat, k: TokenType)
    requires EndsWithEof(ts) && CursorOk(ts, pos)
    ensures ts[pos].kind != k ==> Consume(ts, pos, k) == Returns(Err([MissingToken(k)]), pos)
    ensures ts[pos].kind == k && k != Eof ==> Consume(ts, pos, k) == Returns(Ok(ts[pos]), pos + 1)
    ensures ts[pos].kind == k == Eof && pos == 0 ==> Consume(ts, pos, k) == Stuck(PreviousUnderflow)
    ensures ts[pos].kind == k == Eof && pos > 0 ==> Consume(ts, pos, k) == Returns(Ok(ts[pos - 1]), pos)
  {
  }

  /**
   * `synchronize` returns exactly when, after its one `advance`, the cursor
   * is at `Eof` or the token just passed is `;`, and it leaves the cursor
   * where that `advance` put it. Otherwise its loop spins, or, on the first
   * token being `Eof`, `previous` panics.
   */
  lemma SynchronizeFacts(ts: seq<Token>, pos: nat)
    requires EndsWithEof(ts) && CursorOk(ts, pos)
    ensures var next := AdvancePos(ts, pos);
      Synchronize(ts, pos).Synced? <==> next > 0 && (AtEnd(ts, next) || ts[next - 1].kind == Semicolon)
    ensures Synchronize(ts, pos).Synced? ==> Synchronize(ts, pos).next == AdvancePos(ts, pos)
    ensures Synchronize(ts, pos) == SyncStuck(PreviousUnderflow) <==> pos == 0 && AtEnd(ts, pos)
  {
    AdvanceFacts(ts, pos);
  }

  /** `unary` with no prefix operator next is exactly `primary`. */
  lemma UnaryIsPrimary(fuel: nat, ts: seq<Token>, pos: nat)
    requires EndsWithEof(ts) && CursorOk(ts, pos) && !Matches(ts, pos, [Bang, Minus])
    ensures Unary(fuel, ts, pos) == Primary(fuel, ts, pos)
  {
  }

  /** One round of an operator loop, forwards: an operator of the level and an operand tree fold into `left`. */
  lemma LoopStep(fuel: nat, ts: seq<Token>, pos: nat, level: Level, left: Ast.Expression, right: Ast.Expression, next: nat)
    requires EndsWithEof(ts) && CursorOk(ts, pos) && Matches(ts, pos, Operators(level))
    requires Operand(fuel, ts, pos + 1, level) == Returns(Ok(right), next)
    ensures BinaryLoop(fuel, ts, pos, level, left) == BinaryLoop(fuel, ts, next, level, Ast.Binary(left, ts[pos], right))
  {
  }

  /** A prefix operator, forwards: `!` or `-` and the unary tree after it make a `Unary`. */
  lemma PrefixStep(fuel: nat, ts: seq<Token>, pos: nat, right: Ast.Expression, next: nat)
    requires EndsWithEof(ts) && CursorOk(ts, pos) && Matches(ts, pos, [Bang, Minus])
    requires Unary(fuel, ts, pos + 1) == Returns(Ok(right), next)
    ensures Unary(fuel, ts, pos) == Returns(Ok(Ast.Unary(ts[pos], right)), next)
  {
  }

  /**
   * A grouping, forwards: after `(` and the tree inside, a `)` closes a
   * `Grouping`; any other token is `[MissingToken(RightParen)]` with the
   * cursor left on it.
   */
  lemma GroupStep(fuel: nat, ts: seq<Token>, pos: nat, inner: Ast.Expression, next: nat)
    requires EndsWithEof(ts) && CursorOk(ts, pos) && Matches(ts, pos, [LeftParen])
    requires Expression(fuel, ts, pos + 1) == Returns(Ok(inner), next)
    ensures ts[next].kind == RightParen ==> Primary(fuel, ts, pos) == Returns(Ok(Ast.Grouping(inner)), next + 1)
    ensures ts[next].kind != RightParen ==> Primary(fuel, ts, pos) == Returns(Err([MissingToken(RightParen)]), next)
  {
    ConsumeFacts(ts, next, RightParen);
  }

  /** `primary` on a token that starts no literal and no grouping: `[UnexpectedToken(peek())]`, the cursor unchanged. */
  lemma PrimaryUnexpected(fuel: nat, ts: seq<Token>, pos: nat)
    requires EndsWithEof(ts) && CursorOk(ts, pos)
    requires AtEnd(ts, pos) || ts[pos].kind !in {False, True, Nil, Number, String, LeftParen}
    ensures Primary(fuel, ts, pos) == Returns(Err([UnexpectedToken(ts[pos])]), pos)
  {
  }

  // ---------------------------------------------------------------------
  // Where the parser does not return

  /**
   * An expression at `Eof` never returns: `primary` fails there without
   * moving, recovery's `synchronize` stays at `Eof`, and the expression
   * parsed again fails the same way, with no bound. On the first token the
   * failure is the panic in `previous`; further on, it is only the fuel
   * that runs out.
   */
  lemma {:induction false} AtEofNeverReturns(fuel: nat, ts: seq<Token>, pos: nat)
    requires EndsWithEof(ts) && CursorOk(ts, pos) && AtEnd(ts, pos)
    ensures Expression(fuel, ts, pos) == Stuck(if pos == 0 then PreviousUnderflow else OutOfFuel)
    decreases fuel
  {
    var halt := if pos == 0 then PreviousUnderflow else OutOfFuel;
    PrimaryUnexpected(fuel, ts, pos);
    var errors := [UnexpectedToken(ts[pos])];
    assert Unary(fuel, ts, pos) == Returns(Err(errors), pos);
    if pos > 0 && fuel > 0 {
      AtEofNeverReturns(fuel - 1, ts, pos);
    }
    assert Recover(fuel, ts, pos, errors) == Stuck(halt);
    StuckOperand(fuel, ts, pos, halt);
  }

  /**
   * When a recovery returns, the token it skipped was a `;` with a token
   * other than `Eof` after it, at least one nested recovery was allowed, and
   * the expression parsed after the `;` returned: its errors, if any, follow
   * the ones recovery started with, and the cursor is where it left it.
   */
  lemma RecoverReturns(fuel: nat, ts: seq<Token>, pos: nat, errors: Errors)
    requires EndsWithEof(ts) && CursorOk(ts, pos)
    requires Recover(fuel, ts, pos, errors).Returns?
    ensures ts[pos].kind == Semicolon && CursorOk(ts, pos + 1) && !AtEnd(ts, pos + 1) && fuel > 0
    ensures var again := Expression(fuel - 1, ts, pos + 1);
      && again.Returns?
      && Recover(fuel, ts, pos, errors).next == again.next
      && Recover(fuel, ts, pos, errors).result.errors == errors + (if again.result.Err? then again.result.errors else [])
  {
    SynchronizeFacts(ts, pos);
    var next := AdvancePos(ts, pos);
    if AtEnd(ts, next) {
      AtEofNeverReturns(fuel - 1, ts, next);
    }
    if Expression(fuel - 1, ts, pos + 1).result.Ok? {
      assert errors + [] == errors;
    }
  }

  /** A halt in the factor level's operand halts every level above it. */
  lemma StuckOperand(fuel: nat, ts: seq<Token>, pos: nat, halt: Halt)
    requires EndsWithEof(ts) && CursorOk(ts, pos)
    requires Binary(fuel, ts, pos, FactorLevel) == Stuck(halt)
    ensures Expression(fuel, ts, pos) == Stuck(halt)
  {
    assert Operand(fuel, ts, pos, TermLevel) == Stuck(halt);
    assert Binary(fuel, ts, pos, TermLevel) == Stuck(halt);
    assert Operand(fuel, ts, pos, ComparisonLevel) == Stuck(halt);
    assert Binary(fuel, ts, pos, ComparisonLevel) == Stuck(halt);
    assert Operand(fuel, ts, pos, EqualityLevel) == Stuck(halt);
  }

  /** The empty program, the token list `[Eof]`, makes `parse` panic in `previous`, whatever the fuel. */
  lemma EmptyInputPanics(fuel: nat, ts: seq<Token>)
    requires EndsWithEof(ts) && ts[0].kind == Eof
    ensures Parse(fuel, ts) == Stuck(PreviousUnderflow)
  {
    AtEofNeverReturns(fuel, ts, 0);
  }
}
