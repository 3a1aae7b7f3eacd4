/** Concrete inputs, with facts proved of the model: token sequences
    parsed by the grammar that `Parsing.Parser` follows, and trees evaluated
    by `Interpreter.Evaluate`. Each parse is an instance of the round-trip
    theorem, so the expected tree is also the canonical one for its tokens. */
module Examples {
  import opened Syntax
  import opened Grammar
  import opened Precedence
  import opened Interpreter

  function NumToken(n: real): Token {
    LiteralToken(NumberValue(n))
  }

  function StrLiteral(s: string): Expr {
    Literal(StringValue(s))
  }

  const PlusToken := Token(Plus, "+", NilValue, 1)
  const MinusToken := Token(Minus, "-", NilValue, 1)
  const StarToken := Token(Star, "*", NilValue, 1)
  const LessToken := Token(Less, "<", NilValue, 1)
  const EqualEqualToken := Token(EqualEqual, "==", NilValue, 1)
  const BangToken := Token(Bang, "!", NilValue, 1)

  /** `1 + 2 * 3`: the `*` node is the right operand of `+`; the value is 7. */
  const SumOfProduct := Binary(NumberLiteral(1.0), PlusToken, Binary(NumberLiteral(2.0), StarToken, NumberLiteral(3.0)))

  lemma ProductBindsTighterThanSum()
    ensures Parse([NumToken(1.0), PlusToken, NumToken(2.0), StarToken, NumToken(3.0), EofToken]) == Ok(SumOfProduct)
  {
    var e := SumOfProduct;
    assert Unparse(e.right) == [NumToken(2.0), StarToken, NumToken(3.0)];
    assert [NumToken(1.0), PlusToken, NumToken(2.0), StarToken, NumToken(3.0), EofToken] == Unparse(e) + [EofToken];
    assert InTier(e, EqualityTier) by {
      assert InTier(e.right, FactorTier);
    }
    UnparseRoundTrip(e);
  }

  lemma SumOfProductIsSeven()
    ensures Evaluate(SumOfProduct) == Ok(NumberValue(7.0))
  {
    assert Evaluate(SumOfProduct.right) == Ok(NumberValue(6.0)) by {
      assert Multiply(2.0, 3.0) == 6.0;
    }
  }

  /** `(1 + 2) * 3`: parentheses put the sum under the product; the value is 9. */
  const ProductOfGrouping := Binary(Grouping(Binary(NumberLiteral(1.0), PlusToken, NumberLiteral(2.0))), StarToken, NumberLiteral(3.0))

  lemma GroupingOverridesPrecedence()
    ensures Parse([LeftParenToken, NumToken(1.0), PlusToken, NumToken(2.0), RightParenToken, StarToken, NumToken(3.0), EofToken]) ==
              Ok(ProductOfGrouping)
  {
    var e := ProductOfGrouping;
    assert Unparse(e.left.expression) == [NumToken(1.0), PlusToken, NumToken(2.0)];
    assert Unparse(e.left) == [LeftParenToken, NumToken(1.0), PlusToken, NumToken(2.0), RightParenToken];
    assert [LeftParenToken, NumToken(1.0), PlusToken, NumToken(2.0), RightParenToken, StarToken, NumToken(3.0), EofToken] ==
           Unparse(e) + [EofToken];
    assert InTier(e, EqualityTier) by {
      assert InTier(e.left.expression, EqualityTier);
    }
    UnparseRoundTrip(e);
  }

  lemma ProductOfGroupingIsNine()
    ensures Evaluate(ProductOfGrouping) == Ok(NumberValue(9.0))
  {
    assert Evaluate(ProductOfGrouping.left) == Ok(NumberValue(3.0)) by {
      assert Evaluate(ProductOfGrouping.left.expression) == Ok(NumberValue(3.0));
    }
    assert Multiply(3.0, 3.0) == 9.0;
  }

  /** `8 - 4 - 2` folds to the left, `(8 - 4) - 2`; the value is 2. */
  const DifferenceChain := Binary(Binary(NumberLiteral(8.0), MinusToken, NumberLiteral(4.0)), MinusToken, NumberLiteral(2.0))

  lemma DifferenceFoldsLeft()
    ensures Parse([NumToken(8.0), MinusToken, NumToken(4.0), MinusToken, NumToken(2.0), EofToken]) == Ok(DifferenceChain)
  {
    var e := DifferenceChain;
    assert Unparse(e.left) == [NumToken(8.0), MinusToken, NumToken(4.0)];
    assert [NumToken(8.0), MinusToken, NumToken(4.0), MinusToken, NumToken(2.0), EofToken] == Unparse(e) + [EofToken];
    assert InTier(e, EqualityTier) by {
      assert InTier(e.left, TermTier);
    }
    UnparseRoundTrip(e);
  }

  lemma DifferenceChainIsTwo()
    ensures Evaluate(DifferenceChain) == Ok(NumberValue(2.0))
  {
    assert Evaluate(DifferenceChain.left) == Ok(NumberValue(4.0));
  }

  /** `1 < 2 == true`: the comparison sits under the equality; the value is `true`. */
  const ComparisonEquality := Binary(Binary(NumberLiteral(1.0), LessToken, NumberLiteral(2.0)), EqualEqualToken, Literal(BoolValue(true)))

  lemma ComparisonUnderEquality()
    ensures Parse([NumToken(1.0), LessToken, NumToken(2.0), EqualEqualToken, LiteralToken(BoolValue(true)), EofToken]) ==
              Ok(ComparisonEquality)
  {
    var e := ComparisonEquality;
    assert Unparse(e.left) == [NumToken(1.0), LessToken, NumToken(2.0)];
    assert [NumToken(1.0), LessToken, NumToken(2.0), EqualEqualToken, LiteralToken(BoolValue(true)), EofToken] ==
           Unparse(e) + [EofToken];
    assert InTier(e, EqualityTier) by {
      assert InTier(e.left, ComparisonTier);
    }
    UnparseRoundTrip(e);
  }

  lemma ComparisonEqualityIsTrue()
    ensures Evaluate(ComparisonEquality) == Ok(BoolValue(true))
  {
    assert Evaluate(ComparisonEquality.left) == Ok(BoolValue(true));
  }

  /** `!!nil` nests two unary nodes; the value is `false`. */
  const DoubleNot := Unary(BangToken, Unary(BangToken, Literal(NilValue)))

  lemma PrefixOperatorsNest()
    ensures Parse([BangToken, BangToken, LiteralToken(NilValue), EofToken]) == Ok(DoubleNot)
  {
    var e := DoubleNot;
    assert [BangToken, BangToken, LiteralToken(NilValue), EofToken] == Unparse(e) + [EofToken];
    UnparseRoundTrip(e);
  }

  lemma DoubleNotIsFalse()
    ensures Evaluate(DoubleNot) == Ok(BoolValue(false))
  {
    assert Evaluate(DoubleNot.right) == Ok(BoolValue(true));
  }

  /** `(1 + 2` fails at the EOF token with "Expect ')' after expression.". */
  lemma UnclosedGroupingFailsAtEof()
    ensures Parse([LeftParenToken, NumToken(1.0), PlusToken, NumToken(2.0), EofToken]) ==
              Err(ParseError(EofToken, "Expect ')' after expression."))
  {
    var ts := [LeftParenToken, NumToken(1.0), PlusToken, NumToken(2.0), EofToken];
    var sum := Binary(NumberLiteral(1.0), PlusToken, NumberLiteral(2.0));
    assert ts[1..] == Unparse(sum) + [EofToken];
    ParseUnparse(EqualityTier, sum, [EofToken]);
    MissingRightParen(ts, sum, [EofToken]);
    LeadingErrorPropagates(EqualityTier, ts);
  }

  /** `+` on strings concatenates, and on a string and a number fails. */
  lemma PlusOnStrings()
    ensures Evaluate(Binary(StrLiteral("a"), PlusToken, StrLiteral("b"))) == Ok(StringValue("ab"))
    ensures Evaluate(Binary(StrLiteral("a"), PlusToken, NumberLiteral(1.0))) ==
              Err(RuntimeError(PlusToken, "Operands must be two numbers or two strings."))
  {
    assert "a" + "b" == "ab";
  }

  /** Type errors name the operator token. */
  lemma TypeErrors()
    ensures Evaluate(Unary(MinusToken, StrLiteral("x"))) == Err(RuntimeError(MinusToken, "Operand must be a number."))
    ensures Evaluate(Binary(NumberLiteral(1.0), LessToken, StrLiteral("a"))) == Err(RuntimeError(LessToken, "Operands must be numbers."))
  {
  }

  /** `0` and `""` are truthy; `nil` equals only `nil`; `1` differs from `"1"`. */
  lemma TruthinessAndEquality()
    ensures Evaluate(Unary(BangToken, NumberLiteral(0.0))) == Ok(BoolValue(false))
    ensures Evaluate(Unary(BangToken, StrLiteral(""))) == Ok(BoolValue(false))
    ensures Evaluate(Binary(Literal(NilValue), EqualEqualToken, Literal(NilValue))) == Ok(BoolValue(true))
    ensures Evaluate(Binary(Literal(NilValue), EqualEqualToken, Literal(BoolValue(false)))) == Ok(BoolValue(false))
    ensures Evaluate(Binary(NumberLiteral(1.0), EqualEqualToken, StrLiteral("1"))) == Ok(BoolValue(false))
  {
  }
}
