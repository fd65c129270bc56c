/**
 * The syntax tree of Lox expressions. The parser builds only `Binary`,
 * `Unary`, `Literal` and `Grouping`; the other constructors are part of the
 * data model and nothing constructs them. The field `method` of `Super`
 * is renamed `methodName`, since `method` is a reserved word here, and the
 * field `value` of `Set` is renamed `newValue`, since fields shared by
 * several constructors must have one type.
 */
module Ast {

  import opened Tokens

  datatype Expression =
    | Assign(name: Token, expr: Expression)
    | Binary(left: Expression, operator: Token, right: Expression)
    | Call(callee: Expression, paren: Token, arguments: seq<Expression>)
    | Get(expr: Expression, name: Token)
    | Grouping(expr: Expression)
    | Literal(value: Token)
    | Logical(left: Expression, operator: Token, right: Expression)
    | Set(object: Expression, name: Token, newValue: Expression)
    | Super(keyword: Token, methodName: Token)
    | This(keyword: Token)
    | Unary(operator: Token, right: Expression)
    | Variable(name: Token)
}
