/** Precedence and associativity of the grammar in lox/Parser.java, stated
    exactly. `InTier(e, tier)` describes the trees the rule of a tier can
    return: a binary node's left operand belongs to its own tier and its right
    operand to the next tighter one (so each tier folds to the left), a unary
    operand is again unary, and a looser operator appears inside a tighter one
    only under parentheses. Two theorems pin this down: every tree the parser
    returns is in its tier (`ParsedInTier`), and every tree in a tier is parsed
    back from its token rendering (`UnparseRoundTrip`). */
module Precedence {
  import opened Syntax
  import opened Grammar

  /** The binary tier whose loop matches tokens of type `k`, or 0 when none does. */
  function OperatorTier(k: TokenType): (t: nat)
    ensures t == FactorTier <==> k in [Star, Slash]
    ensures t == TermTier <==> k in [Plus, Minus]
    ensures t == ComparisonTier <==> k in [Greater, GreaterEqual, Less, LessEqual]
    ensures t == EqualityTier <==> k in [BangEqual, EqualEqual]
    ensures t == 0 || FactorTier <= t <= EqualityTier
  {
    match k
    case Star | Slash => FactorTier
    case Plus | Minus => TermTier
    case Greater | GreaterEqual | Less | LessEqual => ComparisonTier
    case BangEqual | EqualEqual => EqualityTier
    case _ => 0
  }

  /** A token type is an operator of a binary tier exactly when that tier
      is its operator tier: the four operator lists are disjoint. */
  lemma OperatorTierExact(k: TokenType, tier: nat)
    requires FactorTier <= tier <= EqualityTier
    ensures k in Operators(tier) <==> OperatorTier(k) == tier
  {
  }

  /** `e` can be returned by the rule of `tier` without parentheses around it. */
  predicate InTier(e: Expr, tier: nat) {
    match e
    case Literal(_) => true
    case Grouping(inner) => InTier(inner, EqualityTier)
    case Unary(operator, right) =>
      UnaryTier <= tier && operator.kind in [Bang, Minus] && InTier(right, UnaryTier)
    case Binary(left, operator, right) =>
      var t := OperatorTier(operator.kind);
      FactorTier <= t <= tier && InTier(left, t) && InTier(right, t - 1)
  }

  /** Trees in a tier are well formed, so the interpreter knows their operators. */
  lemma {:induction false} InTierWellFormed(e: Expr, tier: nat)
    requires InTier(e, tier)
    ensures WellFormed(e)
  {
    match e
    case Literal(_) =>
    case Grouping(inner) =>
      InTierWellFormed(inner, EqualityTier);
    case Unary(_, right) =>
      InTierWellFormed(right, UnaryTier);
    case Binary(left, operator, right) =>
      var t := OperatorTier(operator.kind);
      InTierWellFormed(left, t);
      InTierWellFormed(right, t - 1);
  }

  /** The next token cannot continue an operator loop of `tier` or of any
      tighter binary tier. */
  predicate Stops(rest: seq<Token>, tier: nat)
    requires |rest| > 0
  {
    !(FactorTier <= OperatorTier(rest[0].kind) <= tier)
  }

  const EofToken := Token(Eof, "", NilValue, 1)
  const LeftParenToken := Token(LeftParen, "(", NilValue, 1)
  const RightParenToken := Token(RightParen, ")", NilValue, 1)

  /** The token `primary()` turns into the literal `v`. */
  function LiteralToken(v: Value): (t: Token)
    ensures t.kind in [False, True, Nil, Number, String]
  {
    match v
    case NilValue => Token(Nil, "nil", NilValue, 1)
    case BoolValue(b) => if b then Token(True, "true", NilValue, 1) else Token(False, "false", NilValue, 1)
    case NumberValue(_) => Token(Number, "", v, 1)
    case StringValue(_) => Token(String, "", v, 1)
  }

  /** `primary()` turns the token of any value into that literal and
      consumes exactly that token. */
  lemma LiteralTokenParses(v: Value, rest: seq<Token>)
    requires Terminated(rest)
    ensures ParseAt(PrimaryTier, [LiteralToken(v)] + rest) == Step(Ok(Literal(v)), rest)
  {
    PrimaryUnparse(Literal(v), rest);
  }

  /** The tokens of a tree written out in order, with parentheses exactly
      where the tree has `Grouping` nodes. */
  function Unparse(e: Expr): (ts: seq<Token>)
    ensures |ts| > 0
  {
    match e
    case Literal(v) => [LiteralToken(v)]
    case Grouping(inner) => [LeftParenToken] + Unparse(inner) + [RightParenToken]
    case Unary(operator, right) => [operator] + Unparse(right)
    case Binary(left, operator, right) => Unparse(left) + [operator] + Unparse(right)
  }

  /** The rule of `tier` reads back a tree of that tier from its tokens and
      stops just after them, provided the next token does not continue one of
      its operator loops. */
  lemma {:induction false} ParseUnparse(tier: nat, e: Expr, rest: seq<Token>)
    requires tier <= EqualityTier && InTier(e, tier) && Terminated(rest) && Stops(rest, tier)
    ensures ParseAt(tier, Unparse(e) + rest) == Step(Ok(e), rest)
    decreases e, tier, 2
  {
    if tier == PrimaryTier {
      PrimaryUnparse(e, rest);
    } else if tier == UnaryTier {
      UnaryUnparse(e, rest);
    } else {
      FoldUnparse(tier, e, rest);
      OperatorTierExact(rest[0].kind, tier);
      FoldTierUnfold(tier, rest, e);
    }
  }

  /** `primary()` on the tokens of a literal or a parenthesised tree. */
  lemma {:induction false} PrimaryUnparse(e: Expr, rest: seq<Token>)
    requires InTier(e, PrimaryTier) && Terminated(rest)
    ensures ParseAt(PrimaryTier, Unparse(e) + rest) == Step(Ok(e), rest)
    decreases e, 0, 1
  {
    if e.Literal? {
      var ts := Unparse(e) + rest;
      assert ts[0] == LiteralToken(e.value) && ts[1..] == rest;
      PrimaryLiteral(ts, e.value);
    } else {
      GroupingUnparse(e, rest);
    }
  }

  /** `primary()` on `(`, the tokens of a tree, `)`. */
  lemma {:induction false} GroupingUnparse(e: Expr, rest: seq<Token>)
    requires e.Grouping? && InTier(e, PrimaryTier) && Terminated(rest)
    ensures ParseAt(PrimaryTier, Unparse(e) + rest) == Step(Ok(e), rest)
    decreases e, 0, 0
  {
    var ts := Unparse(e) + rest;
    var closing := [RightParenToken] + rest;
    assert ts[0] == LeftParenToken && ts[1..] == Unparse(e.expression) + closing;
    PrimaryGrouping(ts);
    GroupingRestUnfold(ts, 1);
    ParseUnparse(EqualityTier, e.expression, closing);
    assert closing[1..] == rest;
  }

  /** `unary()` on the tokens of a unary tree. */
  lemma {:induction false} UnaryUnparse(e: Expr, rest: seq<Token>)
    requires InTier(e, UnaryTier) && Terminated(rest)
    ensures ParseAt(UnaryTier, Unparse(e) + rest) == Step(Ok(e), rest)
    decreases e, 1, 0
  {
    var ts := Unparse(e) + rest;
    if e.Unary? {
      assert ts[0] == e.operator && ts[1..] == Unparse(e.right) + rest;
      UnaryUnparse(e.right, rest);
    } else {
      assert ts[0] == Unparse(e)[0];
      PrimaryUnparse(e, rest);
    }
  }

  /** The rule of a binary tier, on the tokens of a tree of that tier, ends
      in its fold loop with exactly that tree built and the cursor after its
      tokens. */
  lemma {:induction false} FoldUnparse(tier: nat, e: Expr, rest: seq<Token>)
    requires FactorTier <= tier <= EqualityTier && InTier(e, tier) && Terminated(rest) && Stops(rest, tier - 1)
    ensures WellFormed(e) && ParseAt(tier, Unparse(e) + rest) == FoldTier(tier, rest, e)
    decreases e, tier, 1
  {
    InTierWellFormed(e, tier);
    if e.Binary? && OperatorTier(e.operator.kind) == tier {
      FoldUnparseOperator(tier, e, rest);
    } else {
      assert InTier(e, tier - 1);
      ParseUnparse(tier - 1, e, rest);
      BinaryTierUnfold(tier, Unparse(e) + rest);
    }
  }

  /** The step of `FoldUnparse` for a node of the tier itself: the fold has
      built its left operand when it reaches the operator, and one more turn
      of the loop adds the right operand. */
  lemma {:induction false} FoldUnparseOperator(tier: nat, e: Expr, rest: seq<Token>)
    requires FactorTier <= tier <= EqualityTier && InTier(e, tier) && Terminated(rest) && Stops(rest, tier - 1)
    requires e.Binary? && OperatorTier(e.operator.kind) == tier
    ensures WellFormed(e) && ParseAt(tier, Unparse(e) + rest) == FoldTier(tier, rest, e)
    decreases e, tier, 0
  {
    var left, operator, right := e.left, e.operator, e.right;
    InTierWellFormed(e, tier);
    var after := [operator] + (Unparse(right) + rest);
    assert Unparse(e) + rest == Unparse(left) + after;
    assert ParseAt(tier, Unparse(left) + after) == FoldTier(tier, after, left) by {
      OperatorTierExact(operator.kind, tier);
      FoldUnparse(tier, left, after);
    }
    assert FoldTier(tier, after, left) == FoldTier(tier, rest, e) by {
      assert after[1..] == Unparse(right) + rest;
      OperatorTierExact(operator.kind, tier);
      ParseUnparse(tier - 1, right, rest);
      FoldTierUnfold(tier, after, left);
    }
  }

  /** Round trip: a tree that needs no parentheses beyond its own `Grouping`
      nodes is parsed back from its tokens followed by EOF. */
  lemma UnparseRoundTrip(e: Expr)
    requires InTier(e, EqualityTier)
    ensures Parse(Unparse(e) + [EofToken]) == Ok(e)
  {
    ParseUnparse(EqualityTier, e, [EofToken]);
  }

  /** Every tree the rule of a tier returns is in that tier. */
  lemma {:induction false} ParsedInTier(tier: nat, ts: seq<Token>)
    requires tier <= EqualityTier && Terminated(ts)
    ensures ParseAt(tier, ts).result.Ok? ==> InTier(ParseAt(tier, ts).result.value, tier)
    decreases |ts|, tier, 2
  {
    if tier == PrimaryTier {
      PrimaryInTier(ts);
    } else if tier == UnaryTier {
      UnaryInTier(ts);
    } else {
      BinaryTierInTier(tier, ts);
    }
  }

  /** A binary tier: its first operand is of the next tighter tier, hence
      of this one, and the fold keeps the tree in the tier. */
  lemma {:induction false} BinaryTierInTier(tier: nat, ts: seq<Token>)
    requires FactorTier <= tier <= EqualityTier && Terminated(ts)
    ensures ParseAt(tier, ts).result.Ok? ==> InTier(ParseAt(tier, ts).result.value, tier)
    decreases |ts|, tier, 1
  {
    BinaryTierUnfold(tier, ts);
    var first := ParseAt(tier - 1, ts);
    ParsedInTier(tier - 1, ts);
    if first.result.Ok? {
      assert InTier(first.result.value, tier);
      FoldInTier(tier, first.rest, first.result.value);
    }
  }

  /** The fold loop of a binary tier keeps the tree built so far in its tier. */
  lemma {:induction false} FoldInTier(tier: nat, ts: seq<Token>, left: Expr)
    requires FactorTier <= tier <= EqualityTier && Terminated(ts) && WellFormed(left) && InTier(left, tier)
    ensures FoldTier(tier, ts, left).result.Ok? ==> InTier(FoldTier(tier, ts, left).result.value, tier)
    decreases |ts|, tier, 0
  {
    FoldTierUnfold(tier, ts, left);
    if Matches(ts, Operators(tier)) {
      var right := ParseAt(tier - 1, ts[1..]);
      ParsedInTier(tier - 1, ts[1..]);
      if right.result.Ok? {
        OperatorTierExact(ts[0].kind, tier);
        FoldInTier(tier, right.rest, Binary(left, ts[0], right.result.value));
      }
    }
  }

  /** `unary()` returns unary trees. */
  lemma {:induction false} UnaryInTier(ts: seq<Token>)
    requires Terminated(ts)
    ensures ParseAt(UnaryTier, ts).result.Ok? ==> InTier(ParseAt(UnaryTier, ts).result.value, UnaryTier)
    decreases |ts|, 1, 0
  {
    if Matches(ts, [Bang, Minus]) {
      UnaryInTier(ts[1..]);
    } else {
      PrimaryInTier(ts);
    }
  }

  /** `primary()` returns literals and groupings. */
  lemma {:induction false} PrimaryInTier(ts: seq<Token>)
    requires Terminated(ts)
    ensures ParseAt(PrimaryTier, ts).result.Ok? ==> InTier(ParseAt(PrimaryTier, ts).result.value, PrimaryTier)
    decreases |ts|, 0, 0
  {
    if Matches(ts, [LeftParen]) {
      PrimaryGrouping(ts);
      GroupingRestUnfold(ts, 1);
      ParsedInTier(EqualityTier, ts[1..]);
    }
  }

  /** An error in the leading primary of an expression (one that does not
      start with `!` or `-`) is the error of every tier above it: each binary
      tier returns the failure of its first operand unchanged. */
  lemma {:induction false} LeadingErrorPropagates(tier: nat, ts: seq<Token>)
    requires tier <= EqualityTier && Terminated(ts) && !Matches(ts, [Bang, Minus])
    requires ParseAt(PrimaryTier, ts).result.Err?
    ensures ParseAt(tier, ts) == ParseAt(PrimaryTier, ts)
  {
    if tier >= FactorTier {
      LeadingErrorPropagates(tier - 1, ts);
      BinaryTierUnfold(tier, ts);
    }
  }

  /** `(` followed by an expression that is not closed: `consume` fails at
      the token after the expression, without moving, with the message
      "Expect ')' after expression.". */
  lemma MissingRightParen(ts: seq<Token>, e: Expr, rest: seq<Token>)
    requires Terminated(ts) && Matches(ts, [LeftParen])
    requires ParseExpression(ts[1..]) == Step(Ok(e), rest) && !Check(rest, RightParen)
    ensures ParseAt(PrimaryTier, ts) == Step(Err(ParseError(rest[0], RightParenMessage)), rest)
  {
    PrimaryGrouping(ts);
    GroupingRestUnfold(ts, 1);
  }
}
