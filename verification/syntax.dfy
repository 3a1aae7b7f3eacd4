/** Tokens, runtime values and expression trees shared by the parser and the
    interpreter of the Lox expression language. The lexer that produces tokens
    is not part of this model; a token sequence is taken as given. */
module Syntax {

  /** The lexical category of a token. */
  datatype TokenType =
    // single-character tokens
    | LeftParen | RightParen | LeftBrace | RightBrace
    | Comma | Dot | Minus | Plus | Semicolon | Slash | Star
    // one- or two-character tokens
    | Bang | BangEqual | Equal | EqualEqual
    | Greater | GreaterEqual | Less | LessEqual
    // literals
    | Identifier | String | Number
    // keywords
    | And | Class | Else | False | Fun | For | If | Nil | Or
    | Print | Return | Super | This | True | Var | While
    // the sentinel that ends every token sequence
    | Eof

  /** A Lox runtime value: the closed union of what the interpreter can produce.
      `NilValue` stands for Java's `null`; numbers are exact reals rather than
      IEEE doubles. */
  datatype Value =
    | NilValue
    | BoolValue(b: bool)
    | NumberValue(n: real)
    | StringValue(s: string)

  /** A token as the lexer hands it over. `literal` is the semantic value of a
      NUMBER or STRING token and `NilValue` for every other token. */
  datatype Token = Token(kind: TokenType, lexeme: string, literal: Value, line: int)

  /** The expression tree. Each node owns its children. */
  datatype Expr =
    | Literal(value: Value)
    | Grouping(expression: Expr)
    | Unary(operator: Token, right: Expr)
    | Binary(left: Expr, operator: Token, right: Expr)

  /** The literal node of a number. */
  function NumberLiteral(n: real): Expr {
    Literal(NumberValue(n))
  }

  /** The token types that prefix a `Unary` node. */
  predicate IsUnaryOperator(k: TokenType) {
    k == Bang || k == Minus
  }

  /** The token types that join the two sides of a `Binary` node. */
  predicate IsBinaryOperator(k: TokenType) {
    k.Minus? || k.Plus? || k.Slash? || k.Star? || k.Greater? || k.GreaterEqual? || k.Less? || k.LessEqual? || k.BangEqual? || k.EqualEqual?
  }

  /** Every operator node carries an operator token the interpreter knows. */
  predicate WellFormed(e: Expr) {
    match e
    case Literal(_) => true
    case Grouping(inner) => WellFormed(inner)
    case Unary(operator, right) => IsUnaryOperator(operator.kind) && WellFormed(right)
    case Binary(left, operator, right) =>
      WellFormed(left) && IsBinaryOperator(operator.kind) && WellFormed(right)
  }

  /** A success value or an error, standing in for Java's exceptions; usable
      with `:-`. */
  datatype Result<+T, +E> = Ok(value: T) | Err(error: E) {
    predicate IsFailure() {
      Err?
    }

    function PropagateFailure<U>(): Result<U, E>
      requires Err?
    {
      Err(error)
    }

    function Extract(): T
      requires Ok?
    {
      value
    }
  }

  /** A syntax error: the token where parsing stopped and a message. */
  datatype ParseError = ParseError(token: Token, message: string)

  /** A type error during evaluation: the offending operator token and a message. */
  datatype RuntimeError = RuntimeError(token: Token, message: string)
}
