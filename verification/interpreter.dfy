/** lox/Interpreter.java: the tree-walking evaluator. The visitor's double
    dispatch (`accept`, Interpreter.java:15) becomes a `match` on the tree, and
    Java's `RuntimeError` exception becomes an `Err` result that propagates out
    of every enclosing evaluation, as the exception unwinds the Java stack. */
module Interpreter {
  import opened Syntax

  const OperandMessage := "Operand must be a number."
  const OperandsMessage := "Operands must be numbers."
  const PlusMessage := "Operands must be two numbers or two strings."

  /** `isTruthy`: `nil` is falsey, a Boolean is itself, and every other value,
      `0` and `""` included, is truthy. */
  function IsTruthy(v: Value): (r: bool)
    ensures r <==> v != NilValue && v != BoolValue(false)
  {
    match v
    case NilValue => false
    case BoolValue(b) => b
    case _ => true
  }

  /** `isEqual`: `nil` equals only `nil`; otherwise the left operand's
      `equals`. */
  function IsEqual(left: Value, right: Value): (r: bool)
    ensures r <==> left == right
  {
    if left == NilValue && right == NilValue then true
    else if left == NilValue then false
    else BoxEquals(left, right)
  }

  /** `Object.equals` on a boxed Boolean, Double or String: the other object
      is of the same class and holds the same content. */
  function BoxEquals(receiver: Value, other: Value): (r: bool)
    requires receiver != NilValue
    ensures r <==> receiver == other
  {
    if receiver.BoolValue? then other.BoolValue? && other.b == receiver.b
    else if receiver.NumberValue? then other.NumberValue? && other.n == receiver.n
    else other.StringValue? && other.s == receiver.s
  }

  /** `checkNumberOperand`: the operand unboxed as a number, or the error
      that names the operator. */
  function CheckNumberOperand(operator: Token, operand: Value): (r: Result<real, RuntimeError>)
    ensures r.Ok? <==> operand.NumberValue?
    ensures r.Ok? ==> r.value == operand.n
    ensures r.Err? ==> r.error == RuntimeError(operator, OperandMessage)
  {
    if operand.NumberValue? then Ok(operand.n)
    else Err(RuntimeError(operator, OperandMessage))
  }

  /** `checkNumberOperands`: both operands unboxed as numbers, or the error
      that names the operator. */
  function CheckNumberOperands(operator: Token, left: Value, right: Value): (r: Result<(real, real), RuntimeError>)
    ensures r.Ok? <==> left.NumberValue? && right.NumberValue?
    ensures r.Ok? ==> r.value == (left.n, right.n)
    ensures r.Err? ==> r.error == RuntimeError(operator, OperandsMessage)
  {
    if left.NumberValue? && right.NumberValue? then Ok((left.n, right.n))
    else Err(RuntimeError(operator, OperandsMessage))
  }

  /** Division on exact reals. Java divides IEEE doubles, where a zero divisor
      gives an infinity or NaN; those values are not part of this model and the
      quotient is 0 instead. */
  function Divide(a: real, b: real): (r: real)
    ensures b != 0.0 ==> r * b == a
  {
    if b == 0.0 then 0.0 else a / b
  }

  /** Multiplication on exact reals, in place of IEEE doubles; dividing the
      product by a non-zero factor gives back the other factor. */
  function Multiply(a: real, b: real): (r: real)
    ensures b != 0.0 ==> Divide(r, b) == a
    ensures a == 0.0 || b == 0.0 ==> r == 0.0
  {
    a * b
  }

  /** The `switch` of `visitUnaryExpr` once the operand has a value. An
      operator the switch does not list yields Java's `null`, Lox's `nil`. */
  function ApplyUnary(operator: Token, right: Value): (r: Result<Value, RuntimeError>)
    ensures r.Err? ==> r.error == RuntimeError(operator, OperandMessage)
  {
    match operator.kind
    case Bang => Ok(BoolValue(!IsTruthy(right)))
    case Minus =>
      var n :- CheckNumberOperand(operator, right);
      Ok(NumberValue(-n))
    case _ => Ok(NilValue)
  }

  /** The `switch` of `visitBinaryExpr` once both operands have values. */
  function ApplyBinary(operator: Token, left: Value, right: Value): (r: Result<Value, RuntimeError>)
    ensures r.Err? ==> r.error.token == operator
    ensures r.Err? ==> r.error.message == if operator.kind == Plus then PlusMessage else OperandsMessage
  {
    match operator.kind
    case Minus =>
      var (a, b) :- CheckNumberOperands(operator, left, right);
      Ok(NumberValue(a - b))
    case Slash =>
      var (a, b) :- CheckNumberOperands(operator, left, right);
      Ok(NumberValue(Divide(a, b)))
    case Star =>
      var (a, b) :- CheckNumberOperands(operator, left, right);
      Ok(NumberValue(Multiply(a, b)))
    case Plus =>
      if left.NumberValue? && right.NumberValue? then Ok(NumberValue(left.n + right.n))
      else if left.StringValue? && right.StringValue? then Ok(StringValue(left.s + right.s))
      else Err(RuntimeError(operator, PlusMessage))
    case Greater =>
      var (a, b) :- CheckNumberOperands(operator, left, right);
      Ok(BoolValue(a > b))
    case GreaterEqual =>
      var (a, b) :- CheckNumberOperands(operator, left, right);
      Ok(BoolValue(a >= b))
    case Less =>
      var (a, b) :- CheckNumberOperands(operator, left, right);
      Ok(BoolValue(a < b))
    case LessEqual =>
      var (a, b) :- CheckNumberOperands(operator, left, right);
      Ok(BoolValue(a <= b))
    case BangEqual => Ok(BoolValue(!IsEqual(left, right)))
    case EqualEqual => Ok(BoolValue(IsEqual(left, right)))
    case _ => Ok(NilValue)
  }

  /** The operator tokens of the nodes of a tree. */
  function OperatorTokens(e: Expr): set<Token> {
    match e
    case Literal(_) => {}
    case Grouping(inner) => OperatorTokens(inner)
    case Unary(operator, right) => {operator} + OperatorTokens(right)
    case Binary(left, operator, right) => OperatorTokens(left) + {operator} + OperatorTokens(right)
  }

  /** `evaluate` with the four `visit...Expr` methods: the operand of a unary
      node first, the left then the right operand of a binary node, and the
      first error stops evaluation. An error names an operator of the tree and
      carries one of the three messages. */
  function Evaluate(e: Expr): (r: Result<Value, RuntimeError>)
    ensures r.Err? ==> r.error.token in OperatorTokens(e)
    ensures r.Err? ==> r.error.message in {OperandMessage, OperandsMessage, PlusMessage}
    ensures e.Literal? ==> r == Ok(e.value)
  {
    match e
    case Literal(value) => Ok(value)
    case Grouping(inner) => Evaluate(inner)
    case Unary(operator, right) =>
      var v :- Evaluate(right);
      ApplyUnary(operator, v)
    case Binary(left, operator, right) =>
      var a :- Evaluate(left);
      var b :- Evaluate(right);
      ApplyBinary(operator, a, b)
  }

  /** The tree with every `Grouping` node replaced by its inner expression. */
  function StripGroupings(e: Expr): Expr {
    match e
    case Literal(_) => e
    case Grouping(inner) => StripGroupings(inner)
    case Unary(operator, right) => Unary(operator, StripGroupings(right))
    case Binary(left, operator, right) => Binary(StripGroupings(left), operator, StripGroupings(right))
  }

  /** A literal evaluates to its stored value, and a grouping exactly as its
      inner expression; hence parentheses, at any depth, never change what a
      tree evaluates to. */
  lemma {:induction false} GroupingsAreTransparent(e: Expr)
    ensures Evaluate(Grouping(e)) == Evaluate(e)
    ensures Evaluate(StripGroupings(e)) == Evaluate(e)
  {
    match e
    case Literal(_) =>
    case Grouping(inner) =>
      GroupingsAreTransparent(inner);
    case Unary(operator, right) =>
      GroupingsAreTransparent(right);
    case Binary(left, operator, right) =>
      GroupingsAreTransparent(left);
      GroupingsAreTransparent(right);
  }

  /** `!x` fails only when `x` does, and otherwise is the negated truthiness
      of `x`. */
  lemma NotNegatesTruthiness(operator: Token, e: Expr)
    requires operator.kind == Bang
    ensures Evaluate(e).Err? ==> Evaluate(Unary(operator, e)) == Evaluate(e)
    ensures Evaluate(e).Ok? ==> Evaluate(Unary(operator, e)) == Ok(BoolValue(!IsTruthy(Evaluate(e).value)))
  {
  }

  /** `-x` fails only as `x` does when `x` fails; otherwise it succeeds
      exactly when `x` evaluates to a number, and negates it, and a
      non-number operand fails with the operator's token. */
  lemma NegateRequiresNumber(operator: Token, e: Expr)
    requires operator.kind == Minus
    ensures Evaluate(e).Err? ==> Evaluate(Unary(operator, e)) == Evaluate(e)
    ensures Evaluate(e).Ok? ==>
              var v := Evaluate(e).value;
              && (Evaluate(Unary(operator, e)).Ok? <==> v.NumberValue?)
              && (v.NumberValue? ==> Evaluate(Unary(operator, e)) == Ok(NumberValue(-v.n)))
              && (!v.NumberValue? ==> Evaluate(Unary(operator, e)) == Err(RuntimeError(operator, OperandMessage)))
  {
  }

  /** The operators other than `+`, `==` and `!=` that take two numbers. */
  predicate IsNumericOperator(k: TokenType) {
    k in [Minus, Slash, Star, Greater, GreaterEqual, Less, LessEqual]
  }

  /** `-`, `/`, `*`, `>`, `>=`, `<` and `<=` succeed exactly on two numbers:
      the arithmetic ones give a number, the comparisons a Boolean, and any
      other operands fail with the operator's token. */
  lemma NumericOperatorsRequireNumbers(operator: Token, left: Value, right: Value)
    requires IsNumericOperator(operator.kind)
    ensures ApplyBinary(operator, left, right).Ok? <==> left.NumberValue? && right.NumberValue?
    ensures !(left.NumberValue? && right.NumberValue?) ==>
              ApplyBinary(operator, left, right) == Err(RuntimeError(operator, OperandsMessage))
    ensures left.NumberValue? && right.NumberValue? ==>
              var (a, b, r) := (left.n, right.n, ApplyBinary(operator, left, right));
              && (operator.kind == Minus ==> r == Ok(NumberValue(a - b)))
              && (operator.kind == Slash ==> r == Ok(NumberValue(Divide(a, b))))
              && (operator.kind == Star ==> r == Ok(NumberValue(Multiply(a, b))))
              && (operator.kind == Greater ==> r == Ok(BoolValue(a > b)))
              && (operator.kind == GreaterEqual ==> r == Ok(BoolValue(a >= b)))
              && (operator.kind == Less ==> r == Ok(BoolValue(a < b)))
              && (operator.kind == LessEqual ==> r == Ok(BoolValue(a <= b)))
  {
    if left.NumberValue? && right.NumberValue? {
      assert CheckNumberOperands(operator, left, right) == Ok((left.n, right.n));
    }
  }

  /** `+` adds two numbers and concatenates two strings; every other pair of
      operands fails with the operator's token. */
  lemma PlusAddsOrConcatenates(operator: Token, left: Value, right: Value)
    requires operator.kind == Plus
    ensures left.NumberValue? && right.NumberValue? ==>
              ApplyBinary(operator, left, right) == Ok(NumberValue(left.n + right.n))
    ensures left.StringValue? && right.StringValue? ==>
              ApplyBinary(operator, left, right) == Ok(StringValue(left.s + right.s))
    ensures ApplyBinary(operator, left, right).Ok? <==>
              (left.NumberValue? && right.NumberValue?) || (left.StringValue? && right.StringValue?)
    ensures ApplyBinary(operator, left, right).Err? ==>
              ApplyBinary(operator, left, right) == Err(RuntimeError(operator, PlusMessage))
  {
  }

  /** `==` and `!=` never fail: `==` holds exactly when the two values are
      the same (so `nil == nil`, `nil` differs from everything else, and values
      of different kinds such as `1` and `"1"` differ), and `!=` is always its
      negation. */
  lemma BangEqualNegatesEqualEqual(notEqual: Token, equal: Token, left: Value, right: Value)
    requires notEqual.kind == BangEqual && equal.kind == EqualEqual
    ensures ApplyBinary(equal, left, right) == Ok(BoolValue(left == right))
    ensures ApplyBinary(notEqual, left, right) == Ok(BoolValue(left != right))
  {
  }

  /** Evaluation order of a binary node: an error in the left operand is
      the one reported, whatever the right operand does; then an error in the
      right operand; only then the operator is applied. */
  lemma LeftOperandFirst(left: Expr, operator: Token, right: Expr)
    ensures Evaluate(left).Err? ==> Evaluate(Binary(left, operator, right)) == Evaluate(left)
    ensures Evaluate(left).Ok? && Evaluate(right).Err? ==> Evaluate(Binary(left, operator, right)) == Evaluate(right)
    ensures Evaluate(left).Ok? && Evaluate(right).Ok? ==>
              Evaluate(Binary(left, operator, right)) == ApplyBinary(operator, Evaluate(left).value, Evaluate(right).value)
  {
  }

  /** On a well-formed tree, the `return null` fall-throughs of the two
      `switch` statements are never reached: evaluation yields `nil` only for
      a `nil` literal, possibly parenthesised. */
  lemma {:induction false} NilOnlyFromNilLiteral(e: Expr)
    requires WellFormed(e) && Evaluate(e) == Ok(NilValue)
    ensures StripGroupings(e) == Literal(NilValue)
  {
    match e
    case Literal(_) =>
    case Grouping(inner) =>
      NilOnlyFromNilLiteral(inner);
    case Unary(operator, right) =>
    case Binary(left, operator, right) =>
  }
}
