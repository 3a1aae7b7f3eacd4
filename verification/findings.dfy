/** lox/Parser.java:57 parses the right operand of `*` and `/` with
    `factor()` instead of `unary()`. The rule then recurses to the right, so
    `8 / 4 / 2` groups as `8 / (4 / 2)` and evaluates to 4 instead of 1. The
    functions below are the rules of the parser exactly as written: they
    differ from `Grammar` only in the factor tier, and every other rule calls
    them, so a parenthesised expression inside an operand is parsed as
    written too. The rest of the model, the class `Parsing.Parser` included,
    uses the left fold of the other tiers. */
module Findings {
  import opened Syntax
  import opened Grammar
  import opened Precedence
  import Interpreter

  /** The rule of the given tier as written. */
  function ParseAtAsWritten(tier: nat, ts: seq<Token>): (s: Step)
    requires tier <= EqualityTier && Terminated(ts)
    ensures Leaves(s, ts) && Consumes(s, ts)
    decreases |ts|, tier, 2
  {
    if tier == PrimaryTier then ParsePrimaryAsWritten(ts)
    else if tier == UnaryTier then ParseUnaryAsWritten(ts)
    else
      var first := ParseAtAsWritten(tier - 1, ts);
      if first.result.Err? then first
      else FoldAsWritten(tier, first.rest, first.result.value)
  }

  /** The `while (match(...))` loop of a binary tier as written: the right
      operand of `*` and `/` is a whole `factor()` (line 57), that of every
      other operator a rule of the next tighter tier. */
  function FoldAsWritten(tier: nat, ts: seq<Token>, left: Expr): (s: Step)
    requires FactorTier <= tier <= EqualityTier && Terminated(ts) && WellFormed(left)
    ensures Leaves(s, ts)
    ensures s.result.Ok? ==> !Matches(s.rest, Operators(tier))
    decreases |ts|, tier, 1
  {
    if Matches(ts, Operators(tier)) then
      var operator := ts[0];
      var right := if tier == FactorTier then ParseAtAsWritten(FactorTier, ts[1..])
                   else ParseAtAsWritten(tier - 1, ts[1..]);
      if right.result.Err? then right
      else FoldAsWritten(tier, right.rest, Binary(left, operator, right.result.value))
    else
      Step(Ok(left), ts)
  }

  /** `unary()` as written, with the unary node of its evident intent. */
  function ParseUnaryAsWritten(ts: seq<Token>): (s: Step)
    requires Terminated(ts)
    ensures Leaves(s, ts) && Consumes(s, ts)
    decreases |ts|, 1, 1
  {
    if Matches(ts, [Bang, Minus]) then
      var operator := ts[0];
      var right := ParseUnaryAsWritten(ts[1..]);
      if right.result.Err? then right
      else Step(Ok(Unary(operator, right.result.value)), right.rest)
    else
      ParsePrimaryAsWritten(ts)
  }

  /** `primary()` as written; a parenthesised expression goes back to the
      equality tier as written. */
  function ParsePrimaryAsWritten(ts: seq<Token>): (s: Step)
    requires Terminated(ts)
    ensures Leaves(s, ts) && Consumes(s, ts)
    decreases |ts|, 0, 1
  {
    if Matches(ts, [False]) then LiteralAfter(ts, BoolValue(false))
    else if Matches(ts, [True]) then LiteralAfter(ts, BoolValue(true))
    else if Matches(ts, [Nil]) then LiteralAfter(ts, NilValue)
    else if Matches(ts, [Number, String]) then LiteralAfter(ts, ts[0].literal)
    else if Matches(ts, [LeftParen]) then ParseGroupingRestAsWritten(ts[1..])
    else Step(Err(ParseError(ts[0], ExpressionMessage)), ts)
  }

  /** The rest of `primary()` after `(`, as written. */
  function ParseGroupingRestAsWritten(ts: seq<Token>): (s: Step)
    requires Terminated(ts)
    ensures Leaves(s, ts) && Consumes(s, ts)
    decreases |ts|, 7, 0
  {
    var inner := ParseAtAsWritten(EqualityTier, ts);
    if inner.result.Err? then inner
    else if Check(inner.rest, RightParen) then Step(Ok(Grouping(inner.result.value)), inner.rest[1..])
    else Step(Err(ParseError(inner.rest[0], RightParenMessage)), inner.rest)
  }

  /** As written, no rule consumes an EOF token. */
  lemma {:induction false} AsWrittenSkipsNoEof(tier: nat, ts: seq<Token>)
    requires tier <= EqualityTier && Terminated(ts)
    ensures SkipsNoEof(ts, ParseAtAsWritten(tier, ts).rest)
    decreases |ts|, tier, 3
  {
    if tier == PrimaryTier {
      assert ParseAtAsWritten(tier, ts) == ParsePrimaryAsWritten(ts);
      PrimaryAsWrittenSkipsNoEof(ts);
    } else if tier == UnaryTier {
      assert ParseAtAsWritten(tier, ts) == ParseUnaryAsWritten(ts);
      UnaryAsWrittenSkipsNoEof(ts);
    } else {
      BinaryAsWrittenSkipsNoEof(tier, ts);
    }
  }

  /** One unfolding of a binary tier as written: its first operand, then
      the loop. */
  lemma BinaryAsWrittenUnfold(tier: nat, ts: seq<Token>)
    requires FactorTier <= tier <= EqualityTier && Terminated(ts)
    ensures var first := ParseAtAsWritten(tier - 1, ts);
            ParseAtAsWritten(tier, ts) == if first.result.Err? then first
                                          else FoldAsWritten(tier, first.rest, first.result.value)
  {
  }

  /** As written, a binary tier consumes its first operand and its loop. */
  lemma {:induction false} BinaryAsWrittenSkipsNoEof(tier: nat, ts: seq<Token>)
    requires FactorTier <= tier <= EqualityTier && Terminated(ts)
    ensures SkipsNoEof(ts, ParseAtAsWritten(tier, ts).rest)
    decreases |ts|, tier, 2
  {
    var first := ParseAtAsWritten(tier - 1, ts);
    AsWrittenSkipsNoEof(tier - 1, ts);
    BinaryAsWrittenUnfold(tier, ts);
    if first.result.Ok? {
      FoldAsWrittenSkipsNoEof(tier, first.rest, first.result.value);
      SkipsNoEofTransitive(ts, first.rest, ParseAtAsWritten(tier, ts).rest);
    }
  }

  /** As written, the loop of a binary tier consumes no EOF token. */
  lemma {:induction false} FoldAsWrittenSkipsNoEof(tier: nat, ts: seq<Token>, left: Expr)
    requires FactorTier <= tier <= EqualityTier && Terminated(ts) && WellFormed(left)
    ensures SkipsNoEof(ts, FoldAsWritten(tier, ts, left).rest)
    decreases |ts|, tier, 1
  {
    if Matches(ts, Operators(tier)) {
      var operandTier := if tier == FactorTier then FactorTier else tier - 1;
      var right := ParseAtAsWritten(operandTier, ts[1..]);
      SkipsNoEofStep(ts);
      AsWrittenSkipsNoEof(operandTier, ts[1..]);
      SkipsNoEofTransitive(ts, ts[1..], right.rest);
      if right.result.Ok? {
        var node := Binary(left, ts[0], right.result.value);
        assert FoldAsWritten(tier, ts, left) == FoldAsWritten(tier, right.rest, node);
        FoldAsWrittenSkipsNoEof(tier, right.rest, node);
        SkipsNoEofTransitive(ts, right.rest, FoldAsWritten(tier, ts, left).rest);
      }
    }
  }

  /** As written, `unary()` consumes no EOF token. */
  lemma {:induction false} UnaryAsWrittenSkipsNoEof(ts: seq<Token>)
    requires Terminated(ts)
    ensures SkipsNoEof(ts, ParseUnaryAsWritten(ts).rest)
    decreases |ts|, 1, 1
  {
    if Matches(ts, [Bang, Minus]) {
      SkipsNoEofStep(ts);
      UnaryAsWrittenSkipsNoEof(ts[1..]);
      SkipsNoEofTransitive(ts, ts[1..], ParseUnaryAsWritten(ts).rest);
    } else {
      PrimaryAsWrittenSkipsNoEof(ts);
    }
  }

  /** As written, `primary()` consumes no EOF token. */
  lemma {:induction false} PrimaryAsWrittenSkipsNoEof(ts: seq<Token>)
    requires Terminated(ts)
    ensures SkipsNoEof(ts, ParsePrimaryAsWritten(ts).rest)
    decreases |ts|, 0, 1
  {
    if Matches(ts, [LeftParen]) {
      PrimaryAsWrittenGrouping(ts);
      SkipsNoEofStep(ts);
      GroupingAsWrittenSkipsNoEof(ts[1..]);
      SkipsNoEofTransitive(ts, ts[1..], ParsePrimaryAsWritten(ts).rest);
    } else {
      PrimaryAsWrittenOther(ts);
      if ts[0].kind != Eof {
        SkipsNoEofStep(ts);
      }
    }
  }

  /** As written, `primary()` on `(` continues after it. */
  lemma PrimaryAsWrittenGrouping(ts: seq<Token>)
    requires Terminated(ts) && Matches(ts, [LeftParen])
    ensures ParsePrimaryAsWritten(ts) == ParseGroupingRestAsWritten(ts[1..])
  {
    assert !Matches(ts, [False]) && !Matches(ts, [True]) && !Matches(ts, [Nil]) && !Matches(ts, [Number, String]);
  }

  /** As written, `primary()` on anything but `(` consumes the current
      token or nothing, and nothing at EOF. */
  lemma PrimaryAsWrittenOther(ts: seq<Token>)
    requires Terminated(ts) && !Matches(ts, [LeftParen])
    ensures var rest := ParsePrimaryAsWritten(ts).rest;
            rest == ts || (ts[0].kind != Eof && rest == ts[1..])
  {
  }

  /** As written, the expression and `)` after `(` consume no EOF token. */
  lemma {:induction false} GroupingAsWrittenSkipsNoEof(ts: seq<Token>)
    requires Terminated(ts)
    ensures SkipsNoEof(ts, ParseGroupingRestAsWritten(ts).rest)
    decreases |ts|, 7, 0
  {
    var inner := ParseAtAsWritten(EqualityTier, ts);
    AsWrittenSkipsNoEof(EqualityTier, ts);
    if inner.result.Ok? && Check(inner.rest, RightParen) {
      SkipsNoEofStep(inner.rest);
      SkipsNoEofTransitive(ts, inner.rest, inner.rest[1..]);
    }
  }

  /** As written, a factor whose first operand fails fails with it, and a
      first operand not followed by `*` or `/` is the whole factor. */
  lemma FactorAsWrittenOperand(ts: seq<Token>)
    requires Terminated(ts)
    ensures var first := ParseAtAsWritten(UnaryTier, ts);
            first.result.Err? || !Matches(first.rest, Operators(FactorTier)) ==>
              ParseAtAsWritten(FactorTier, ts) == first
  {
  }

  /** As written, a first operand followed by `*` or `/` becomes the left
      child of a node whose right child is the factor parsed, as written,
      from the tokens after the operator. That factor has consumed every
      further `*` and `/`, so the loop of line 55 turns at most once and a
      chain nests to the right. */
  lemma {:induction false} FactorAsWrittenNests(ts: seq<Token>)
    requires Terminated(ts)
    ensures var first := ParseAtAsWritten(UnaryTier, ts);
            first.result.Ok? && Matches(first.rest, Operators(FactorTier)) ==>
              var right := ParseAtAsWritten(FactorTier, first.rest[1..]);
              ParseAtAsWritten(FactorTier, ts) ==
                if right.result.Err? then right
                else Step(Ok(Binary(first.result.value, first.rest[0], right.result.value)), right.rest)
  {
    var first := ParseAtAsWritten(UnaryTier, ts);
    if first.result.Ok? && Matches(first.rest, Operators(FactorTier)) {
      var right := ParseAtAsWritten(FactorTier, first.rest[1..]);
      if right.result.Ok? {
        var node := Binary(first.result.value, first.rest[0], right.result.value);
        assert FoldAsWritten(FactorTier, right.rest, node) == Step(Ok(node), right.rest);
      }
    }
  }

  /** A chain of prefix operators over a literal: an operand without
      parentheses. */
  predicate PrefixChain(e: Expr) {
    match e
    case Literal(_) => true
    case Unary(operator, right) => operator.kind in [Bang, Minus] && PrefixChain(right)
    case _ => false
  }

  /** As written, `unary()` reads back a prefix chain over a literal. */
  lemma {:induction false} UnaryAsWrittenChain(e: Expr, rest: seq<Token>)
    requires PrefixChain(e) && Terminated(rest)
    ensures ParseAtAsWritten(UnaryTier, Unparse(e) + rest) == Step(Ok(e), rest)
  {
    var ts := Unparse(e) + rest;
    if e.Unary? {
      assert ts[0] == e.operator && ts[1..] == Unparse(e.right) + rest;
      UnaryAsWrittenChain(e.right, rest);
    } else {
      assert ts[0] == LiteralToken(e.value) && ts[1..] == rest;
      assert ParseAtAsWritten(UnaryTier, ts) == ParsePrimaryAsWritten(ts) by {
        assert !Matches(ts, [Bang, Minus]);
      }
      match e.value
      case NilValue =>
        assert !Matches(ts, [False]) && !Matches(ts, [True]) && Matches(ts, [Nil]);
      case BoolValue(b) =>
        assert if b then Matches(ts, [True]) else Matches(ts, [False]);
      case NumberValue(_) =>
        assert Matches(ts, [Number, String]) && ts[0].literal == e.value;
      case StringValue(_) =>
        assert Matches(ts, [Number, String]) && ts[0].literal == e.value;
    }
  }

  /** As written, a factor followed by a token that continues no looser
      loop is also the result of every looser tier. */
  lemma {:induction false} AsWrittenLift(tier: nat, ts: seq<Token>)
    requires FactorTier <= tier <= EqualityTier && Terminated(ts)
    requires ParseAtAsWritten(FactorTier, ts).result.Ok? && Stops(ParseAtAsWritten(FactorTier, ts).rest, tier)
    ensures ParseAtAsWritten(tier, ts) == ParseAtAsWritten(FactorTier, ts)
    decreases tier
  {
    if tier > FactorTier {
      var factor := ParseAtAsWritten(FactorTier, ts);
      AsWrittenLift(tier - 1, ts);
      OperatorTierExact(factor.rest[0].kind, tier);
    }
  }

  const SlashToken := Token(Slash, "/", NilValue, 1)

  /** The tokens of `8 / 4 / 2`. */
  const DivisionChain := [LiteralToken(NumberValue(8.0)), SlashToken, LiteralToken(NumberValue(4.0)),
                          SlashToken, LiteralToken(NumberValue(2.0))]

  /** The tokens of `8 / 4 / 2` and EOF. */
  const EightByFourByTwo := DivisionChain + [EofToken]

  /** The tokens of `( 8 / 4 / 2 )` and EOF. */
  const GroupedEightByFourByTwo := [LeftParenToken] + DivisionChain + [RightParenToken, EofToken]

  /** `8 / (4 / 2)`, the tree `factor()` as written builds for `8 / 4 / 2`. */
  const RightGrouped := Binary(NumberLiteral(8.0), SlashToken, Binary(NumberLiteral(4.0), SlashToken, NumberLiteral(2.0)))

  /** `(8 / 4) / 2`, the tree a left fold builds for `8 / 4 / 2`. */
  const LeftGrouped := Binary(Binary(NumberLiteral(8.0), SlashToken, NumberLiteral(4.0)), SlashToken, NumberLiteral(2.0))

  /** As written, a prefix chain followed by `*` or `/` is the left child
      of a node whose right child is the factor parsed from the tokens
      after the operator. */
  lemma {:induction false} PrefixChainNestsAsWritten(u: Expr, operator: Token, tail: seq<Token>)
    requires PrefixChain(u) && operator.kind in [Star, Slash] && Terminated(tail)
    requires ParseAtAsWritten(FactorTier, tail).result.Ok?
    ensures var right := ParseAtAsWritten(FactorTier, tail);
            ParseAtAsWritten(FactorTier, Unparse(u) + ([operator] + tail)) ==
              Step(Ok(Binary(u, operator, right.result.value)), right.rest)
  {
    var after := [operator] + tail;
    var ts := Unparse(u) + after;
    assert Terminated(after) && Terminated(ts) by {
      assert after[|after| - 1] == tail[|tail| - 1];
      assert ts[|ts| - 1] == after[|after| - 1];
    }
    UnaryAsWrittenChain(u, after);
    var first := ParseAtAsWritten(UnaryTier, ts);
    assert first.result == Ok(u) && first.rest == after;
    assert Matches(first.rest, Operators(FactorTier)) && first.rest[1..] == tail;
    FactorAsWrittenNests(ts);
  }

  /** As written, the factor rule reads `4 / 2` as one node, whatever
      follows, unless it continues the chain. */
  lemma {:induction false} ShortChainAsWritten(rest: seq<Token>)
    requires Terminated(rest) && !Matches(rest, Operators(FactorTier))
    ensures ParseAtAsWritten(FactorTier, DivisionChain[2..] + rest) == Step(Ok(RightGrouped.right), rest)
  {
    UnaryAsWrittenChain(NumberLiteral(2.0), rest);
    FactorAsWrittenOperand(Unparse(NumberLiteral(2.0)) + rest);
    PrefixChainNestsAsWritten(NumberLiteral(4.0), SlashToken, Unparse(NumberLiteral(2.0)) + rest);
    assert DivisionChain[2..] + rest ==
           Unparse(NumberLiteral(4.0)) + ([SlashToken] + (Unparse(NumberLiteral(2.0)) + rest));
  }

  /** As written, the factor rule reads `8 / 4 / 2` as `8 / (4 / 2)`
      whatever follows, unless it continues the chain. */
  lemma {:induction false} DivisionChainAsWritten(rest: seq<Token>)
    requires Terminated(rest) && !Matches(rest, Operators(FactorTier))
    ensures ParseAtAsWritten(FactorTier, DivisionChain + rest) == Step(Ok(RightGrouped), rest)
  {
    ShortChainAsWritten(rest);
    PrefixChainNestsAsWritten(NumberLiteral(8.0), SlashToken, DivisionChain[2..] + rest);
    assert DivisionChain + rest == Unparse(NumberLiteral(8.0)) + ([SlashToken] + (DivisionChain[2..] + rest));
  }

  /** As written, `8 / 4 / 2` parses as `8 / (4 / 2)`, which evaluates to 4. */
  lemma FactorAsWrittenGroupsRight()
    ensures ParseAtAsWritten(FactorTier, EightByFourByTwo) == Step(Ok(RightGrouped), [EofToken])
    ensures Interpreter.Evaluate(RightGrouped) == Ok(NumberValue(4.0))
  {
    DivisionChainAsWritten([EofToken]);
    assert Interpreter.Evaluate(RightGrouped.right) == Ok(NumberValue(2.0));
  }

  /** As written, the inside of `( 8 / 4 / 2 )` is `8 / (4 / 2)`. */
  lemma GroupedChainInsideAsWritten()
    ensures ParseGroupingRestAsWritten(GroupedEightByFourByTwo[1..]) == Step(Ok(Grouping(RightGrouped)), [EofToken])
  {
    var closing := [RightParenToken, EofToken];
    var inside := GroupedEightByFourByTwo[1..];
    assert inside == DivisionChain + closing;
    DivisionChainAsWritten(closing);
    AsWrittenLift(EqualityTier, inside);
    assert closing[1..] == [EofToken];
  }

  /** As written, `primary()` reads `( 8 / 4 / 2 )` as the grouping of
      `8 / (4 / 2)`. */
  lemma GroupedChainOperandAsWritten()
    ensures ParseAtAsWritten(UnaryTier, GroupedEightByFourByTwo) == Step(Ok(Grouping(RightGrouped)), [EofToken])
  {
    var ts := GroupedEightByFourByTwo;
    assert ts[0] == LeftParenToken;
    GroupedChainInsideAsWritten();
    PrimaryAsWrittenGrouping(ts);
    assert ParseAtAsWritten(UnaryTier, ts) == ParsePrimaryAsWritten(ts) by {
      assert !Matches(ts, [Bang, Minus]);
    }
  }

  /** As written, parentheses do not help: `( 8 / 4 / 2 )` parses as
      `(8 / (4 / 2))`, which evaluates to 4, because `primary()` parses the
      inside with the same `factor()`. */
  lemma GroupedChainAsWritten()
    ensures ParseAtAsWritten(EqualityTier, GroupedEightByFourByTwo) == Step(Ok(Grouping(RightGrouped)), [EofToken])
    ensures Interpreter.Evaluate(Grouping(RightGrouped)) == Ok(NumberValue(4.0))
  {
    GroupedChainOperandAsWritten();
    FactorAsWrittenOperand(GroupedEightByFourByTwo);
    AsWrittenLift(EqualityTier, GroupedEightByFourByTwo);
    FactorAsWrittenGroupsRight();
  }

  /** With the corrected rules, `( 8 / 4 / 2 )` parses as `((8 / 4) / 2)`,
      which evaluates to 1. */
  lemma GroupedChainFoldsLeft()
    ensures Parse(GroupedEightByFourByTwo) == Ok(Grouping(LeftGrouped))
    ensures Interpreter.Evaluate(Grouping(LeftGrouped)) == Ok(NumberValue(1.0))
  {
    var e := Grouping(LeftGrouped);
    assert Unparse(LeftGrouped.left) == [LiteralToken(NumberValue(8.0)), SlashToken, LiteralToken(NumberValue(4.0))];
    assert GroupedEightByFourByTwo == Unparse(e) + [EofToken];
    assert InTier(e, EqualityTier) by {
      assert InTier(LeftGrouped.left, FactorTier);
    }
    UnparseRoundTrip(e);
    FactorGroupsLeft();
  }

  /** With `unary()` as the right operand, `8 / 4 / 2` parses as
      `(8 / 4) / 2`, which evaluates to 1, as the tiers for `+`, `-` and the
      comparisons would group it. */
  lemma FactorGroupsLeft()
    ensures ParseAt(FactorTier, EightByFourByTwo) == Step(Ok(LeftGrouped), [EofToken])
    ensures Interpreter.Evaluate(LeftGrouped) == Ok(NumberValue(1.0))
  {
    var e := LeftGrouped;
    assert Unparse(e.left) == [LiteralToken(NumberValue(8.0)), SlashToken, LiteralToken(NumberValue(4.0))];
    assert EightByFourByTwo == Unparse(e) + [EofToken];
    assert InTier(e, FactorTier) by {
      assert InTier(e.left, FactorTier);
    }
    ParseUnparse(FactorTier, e, [EofToken]);
    assert Interpreter.Evaluate(e.left) == Ok(NumberValue(2.0));
  }
}
