/** The recursive-descent parser of lox/Parser.java as functions over the
    tokens not yet consumed. Each rule takes the remaining tokens and returns
    its result together with the tokens it leaves behind; the class
    `Parsing.Parser` is proved to follow these functions step for step.

    Precedence tiers are numbered from the tightest-binding rule upwards:
    primary 0, unary 1, factor 2, term 3, comparison 4, equality 5. The four
    binary tiers are one rule parameterised by the tier number, because the
    source writes them as four copies of the same loop. */
module Grammar {
  import opened Syntax

  /** A token sequence as the lexer delivers it: non-empty and ending in EOF. */
  predicate Terminated(ts: seq<Token>) {
    |ts| > 0 && ts[|ts| - 1].kind == Eof
  }

  /** What one rule produced and the tokens it did not consume. */
  datatype Step = Step(result: Result<Expr, ParseError>, rest: seq<Token>)

  /** What every rule guarantees: the cursor only moves forward and never off
      the sequence, a tree it returns is well formed, and an error is reported
      at the token where the cursor stopped. */
  predicate Leaves(s: Step, ts: seq<Token>) {
    && Terminated(s.rest)
    && |s.rest| <= |ts|
    && (s.result.Ok? ==> WellFormed(s.result.value))
    && (s.result.Err? ==> s.result.error.token == s.rest[0])
  }

  /** A rule that succeeds has consumed at least one token. */
  predicate Consumes(s: Step, ts: seq<Token>) {
    s.result.Ok? ==> |s.rest| < |ts|
  }

  const PrimaryTier: nat := 0
  const UnaryTier: nat := 1
  const FactorTier: nat := 2
  const TermTier: nat := 3
  const ComparisonTier: nat := 4
  const EqualityTier: nat := 5

  /** The operators the loop of a binary tier matches, in the source's order. */
  function Operators(tier: nat): seq<TokenType> {
    if tier == FactorTier then [Star, Slash]
    else if tier == TermTier then [Plus, Minus]
    else if tier == ComparisonTier then [Greater, GreaterEqual, Less, LessEqual]
    else if tier == EqualityTier then [BangEqual, EqualEqual]
    else []
  }

  /** `check(kind)`: false at EOF, otherwise whether the current token has type `kind`. */
  predicate Check(ts: seq<Token>, kind: TokenType)
    requires |ts| > 0
  {
    ts[0].kind != Eof && ts[0].kind == kind
  }

  /** The test of `match(types...)`: not at EOF, and the current token has one
      of the given types. */
  predicate Matches(ts: seq<Token>, kinds: seq<TokenType>)
    requires |ts| > 0
  {
    ts[0].kind != Eof && ts[0].kind in kinds
  }

  /** `expression()`: the loosest tier, equality. */
  function ParseExpression(ts: seq<Token>): (s: Step)
    requires Terminated(ts)
    ensures Leaves(s, ts) && Consumes(s, ts)
    decreases |ts|, 6, 0
  {
    ParseAt(EqualityTier, ts)
  }

  /** The public entry point: parse one expression from the front of `ts`. */
  function Parse(ts: seq<Token>): (r: Result<Expr, ParseError>)
    requires Terminated(ts)
    ensures r.Ok? ==> WellFormed(r.value)
  {
    ParseExpression(ts).result
  }

  /** The rule of the given tier. */
  function ParseAt(tier: nat, ts: seq<Token>): (s: Step)
    requires tier <= EqualityTier && Terminated(ts)
    ensures Leaves(s, ts) && Consumes(s, ts)
    decreases |ts|, tier, 2
  {
    if tier == PrimaryTier then ParsePrimary(ts)
    else if tier == UnaryTier then ParseUnary(ts)
    else ParseBinaryTier(tier, ts)
  }

  /** `equality()`, `comparison()`, `term()` and `factor()`: one operand of the
      next tighter tier, then the loop that folds further operands. */
  function ParseBinaryTier(tier: nat, ts: seq<Token>): (s: Step)
    requires FactorTier <= tier <= EqualityTier && Terminated(ts)
    ensures Leaves(s, ts) && Consumes(s, ts)
    decreases |ts|, tier, 1
  {
    var first := ParseAt(tier - 1, ts);
    if first.result.Err? then first
    else FoldTier(tier, first.rest, first.result.value)
  }

  /** The `while (match(...))` loop of a binary tier: while the current token
      is an operator of this tier, consume it, parse a right operand of the
      next tighter tier and make the tree built so far its left child. */
  function FoldTier(tier: nat, ts: seq<Token>, left: Expr): (s: Step)
    requires FactorTier <= tier <= EqualityTier && Terminated(ts) && WellFormed(left)
    ensures Leaves(s, ts)
    decreases |ts|, tier, 0
  {
    if Matches(ts, Operators(tier)) then
      var operator := ts[0];
      var right := ParseAt(tier - 1, ts[1..]);
      if right.result.Err? then right
      else FoldTier(tier, right.rest, Binary(left, operator, right.result.value))
    else
      Step(Ok(left), ts)
  }

  /** One unfolding of a binary tier: its first operand, then the fold. */
  lemma BinaryTierUnfold(tier: nat, ts: seq<Token>)
    requires FactorTier <= tier <= EqualityTier && Terminated(ts)
    ensures var first := ParseAt(tier - 1, ts);
            ParseAt(tier, ts) == if first.result.Err? then first
                                 else FoldTier(tier, first.rest, first.result.value)
  {
  }

  /** One unfolding of a fold: it stops on a token that is no operator of its
      tier, and otherwise continues with the next right operand. */
  lemma FoldTierUnfold(tier: nat, ts: seq<Token>, left: Expr)
    requires FactorTier <= tier <= EqualityTier && Terminated(ts) && WellFormed(left)
    ensures !Matches(ts, Operators(tier)) ==> FoldTier(tier, ts, left) == Step(Ok(left), ts)
    ensures Matches(ts, Operators(tier)) ==>
              var right := ParseAt(tier - 1, ts[1..]);
              && (right.result.Err? ==> FoldTier(tier, ts, left) == right)
              && (right.result.Ok? ==>
                    && WellFormed(Binary(left, ts[0], right.result.value))
                    && FoldTier(tier, ts, left) == FoldTier(tier, right.rest, Binary(left, ts[0], right.result.value)))
  {
  }

  /** `unary()`: prefix `!` and `-` nest to the right; anything else is a primary.
      Parser.java:68 builds `new Expr.Binary(operator, right)`, which has no
      left operand and does not compile; the node built here is the evident
      `Unary(operator, right)`. */
  function ParseUnary(ts: seq<Token>): (s: Step)
    requires Terminated(ts)
    ensures Leaves(s, ts) && Consumes(s, ts)
    decreases |ts|, 1, 0
  {
    if Matches(ts, [Bang, Minus]) then
      var operator := ts[0];
      var right := ParseUnary(ts[1..]);
      if right.result.Err? then right
      else Step(Ok(Unary(operator, right.result.value)), right.rest)
    else
      ParsePrimary(ts)
  }

  const RightParenMessage := "Expect ')' after expression."
  const ExpressionMessage := "Expect expression."

  /** `primary()`: literal keywords, NUMBER and STRING tokens, or a
      parenthesised expression that must be closed by `)`. Parser.java:93
      falls off the end of the method when nothing matches, which does not
      compile; the evident intent, taken here, is a parse error at the current
      token. */
  function ParsePrimary(ts: seq<Token>): (s: Step)
    requires Terminated(ts)
    ensures Leaves(s, ts) && Consumes(s, ts)
    decreases |ts|, 0, 0
  {
    if Matches(ts, [False]) then LiteralAfter(ts, BoolValue(false))
    else if Matches(ts, [True]) then LiteralAfter(ts, BoolValue(true))
    else if Matches(ts, [Nil]) then LiteralAfter(ts, NilValue)
    else if Matches(ts, [Number, String]) then LiteralAfter(ts, ts[0].literal)
    else if Matches(ts, [LeftParen]) then ParseGroupingRest(ts[1..])
    else Step(Err(ParseError(ts[0], ExpressionMessage)), ts)
  }

  /** A literal node, with the current token consumed. */
  function LiteralAfter(ts: seq<Token>, v: Value): (s: Step)
    requires Terminated(ts) && ts[0].kind != Eof
    ensures Leaves(s, ts) && s.rest == ts[1..] && s.result == Ok(Literal(v))
  {
    Step(Ok(Literal(v)), ts[1..])
  }

  /** The rest of `primary()` after `(`: an expression, then
      `consume(RIGHT_PAREN, ...)`, which fails at the current token. */
  function ParseGroupingRest(ts: seq<Token>): (s: Step)
    requires Terminated(ts)
    ensures Leaves(s, ts) && Consumes(s, ts)
    decreases |ts|, 7, 0
  {
    var inner := ParseExpression(ts);
    if inner.result.Err? then inner
    else if Check(inner.rest, RightParen) then Step(Ok(Grouping(inner.result.value)), inner.rest[1..])
    else Step(Err(ParseError(inner.rest[0], RightParenMessage)), inner.rest)
  }

  /** `primary()` on a literal keyword, NUMBER or STRING yields the literal
      `v` and consumes that one token. */
  lemma PrimaryLiteral(ts: seq<Token>, v: Value)
    requires Terminated(ts)
    requires || (Matches(ts, [False]) && v == BoolValue(false))
             || (Matches(ts, [True]) && v == BoolValue(true))
             || (Matches(ts, [Nil]) && v == NilValue)
             || (Matches(ts, [Number, String]) && v == ts[0].literal)
    ensures ParseAt(PrimaryTier, ts) == Step(Ok(Literal(v)), ts[1..])
  {
  }

  /** `primary()` on `(` continues after it. */
  lemma PrimaryGrouping(ts: seq<Token>)
    requires Terminated(ts) && Matches(ts, [LeftParen])
    ensures ParseAt(PrimaryTier, ts) == ParseGroupingRest(ts[1..])
  {
  }

  /** `primary()` fails on every other token, without moving. */
  lemma PrimaryError(ts: seq<Token>)
    requires Terminated(ts)
    requires && !Matches(ts, [False]) && !Matches(ts, [True]) && !Matches(ts, [Nil])
             && !Matches(ts, [Number, String]) && !Matches(ts, [LeftParen])
    ensures ParseAt(PrimaryTier, ts) == Step(Err(ParseError(ts[0], ExpressionMessage)), ts)
  {
  }

  /** The rest of a parenthesised expression, for the cursor at index `i` of
      `ts` just after `(`. */
  lemma GroupingRestUnfold(ts: seq<Token>, i: nat)
    requires Terminated(ts) && i < |ts|
    ensures var inner := ParseExpression(ts[i..]);
            ParseGroupingRest(ts[i..]) ==
              if inner.result.Err? then inner
              else if Check(inner.rest, RightParen) then Step(Ok(Grouping(inner.result.value)), inner.rest[1..])
              else Step(Err(ParseError(inner.rest[0], RightParenMessage)), inner.rest)
  {
  }

  /** The token types that `synchronize()` treats as the start of a statement. */
  predicate StatementStart(k: TokenType) {
    k in {Class, Fun, Var, For, If, While, Print, Return}
  }

  /** The cursor at `i` is where `synchronize()` stops: at EOF, just after a
      semicolon, or before a statement keyword. */
  predicate AtBoundary(ts: seq<Token>, i: nat)
    requires 0 < i < |ts|
  {
    ts[i].kind == Eof || ts[i - 1].kind == Semicolon || StatementStart(ts[i].kind)
  }

  /** The first boundary at or after `i`. */
  function NextBoundary(ts: seq<Token>, i: nat): (r: nat)
    requires Terminated(ts) && 0 < i < |ts|
    ensures i <= r < |ts| && AtBoundary(ts, r)
    ensures forall j :: i <= j < r ==> !AtBoundary(ts, j)
    ensures forall j :: i <= j < r ==> ts[j].kind != Eof
    decreases |ts| - i
  {
    if AtBoundary(ts, i) then i else NextBoundary(ts, i + 1)
  }

  /** Where `synchronize()` leaves a cursor that starts at `from`: it takes
      one token unconditionally (none at EOF), then skips to the next
      boundary. `previous()` at index 0 reads outside the list, so a cursor
      still at 0 must not be at EOF. */
  function SynchronizeTarget(ts: seq<Token>, from: nat): (r: nat)
    requires Terminated(ts) && from < |ts| && (0 < from || ts[from].kind != Eof)
    ensures from <= r < |ts| && 0 < r
    ensures ts[from].kind != Eof ==> from < r
    ensures ts[r].kind == Eof || ts[r - 1].kind == Semicolon || StatementStart(ts[r].kind)
    ensures forall j :: from < j < r ==> !AtBoundary(ts, j)
    ensures ts[from].kind == Eof ==> r == from
    ensures forall j :: from <= j < r ==> ts[j].kind != Eof
  {
    if ts[from].kind == Eof then from else NextBoundary(ts, from + 1)
  }

  /** `rest` is what remains of `ts` after consuming tokens none of which is
      EOF: `isAtEnd()` stops every rule at the first EOF, wherever it is. */
  predicate SkipsNoEof(ts: seq<Token>, rest: seq<Token>) {
    && |rest| <= |ts|
    && rest == ts[|ts| - |rest|..]
    && forall j :: 0 <= j < |ts| - |rest| ==> ts[j].kind != Eof
  }

  lemma SkipsNoEofStep(ts: seq<Token>)
    requires |ts| > 0 && ts[0].kind != Eof
    ensures SkipsNoEof(ts, ts[1..])
  {
  }

  lemma SkipsNoEofTransitive(a: seq<Token>, b: seq<Token>, c: seq<Token>)
    requires SkipsNoEof(a, b) && SkipsNoEof(b, c)
    ensures SkipsNoEof(a, c)
  {
    var k := |a| - |b|;
    forall j | k <= j < |a| - |c|
      ensures a[j].kind != Eof
    {
      assert a[j] == b[j - k];
    }
    assert a[|a| - |c|..] == b[|b| - |c|..];
  }

  /** No rule consumes an EOF token: the tokens it leaves are a suffix of its
      input, and every token before them is not EOF. */
  lemma {:induction false} ParseAtSkipsNoEof(tier: nat, ts: seq<Token>)
    requires tier <= EqualityTier && Terminated(ts)
    ensures SkipsNoEof(ts, ParseAt(tier, ts).rest)
    decreases |ts|, tier, 2
  {
    if tier == PrimaryTier {
      PrimarySkipsNoEof(ts);
    } else if tier == UnaryTier {
      UnarySkipsNoEof(ts);
    } else {
      var first := ParseAt(tier - 1, ts);
      ParseAtSkipsNoEof(tier - 1, ts);
      BinaryTierUnfold(tier, ts);
      if first.result.Ok? {
        FoldSkipsNoEof(tier, first.rest, first.result.value);
        SkipsNoEofTransitive(ts, first.rest, ParseAt(tier, ts).rest);
      }
    }
  }

  /** The loop of a binary tier consumes only operators and operands. */
  lemma {:induction false} FoldSkipsNoEof(tier: nat, ts: seq<Token>, left: Expr)
    requires FactorTier <= tier <= EqualityTier && Terminated(ts) && WellFormed(left)
    ensures SkipsNoEof(ts, FoldTier(tier, ts, left).rest)
    decreases |ts|, tier, 1
  {
    FoldTierUnfold(tier, ts, left);
    if Matches(ts, Operators(tier)) {
      var right := ParseAt(tier - 1, ts[1..]);
      SkipsNoEofStep(ts);
      ParseAtSkipsNoEof(tier - 1, ts[1..]);
      SkipsNoEofTransitive(ts, ts[1..], right.rest);
      if right.result.Ok? {
        var node := Binary(left, ts[0], right.result.value);
        FoldSkipsNoEof(tier, right.rest, node);
        SkipsNoEofTransitive(ts, right.rest, FoldTier(tier, ts, left).rest);
      }
    }
  }

  /** `unary()` consumes only prefix operators and its primary. */
  lemma {:induction false} UnarySkipsNoEof(ts: seq<Token>)
    requires Terminated(ts)
    ensures SkipsNoEof(ts, ParseAt(UnaryTier, ts).rest)
    decreases |ts|, 1, 1
  {
    if Matches(ts, [Bang, Minus]) {
      SkipsNoEofStep(ts);
      UnarySkipsNoEof(ts[1..]);
      assert ParseAt(UnaryTier, ts).rest == ParseAt(UnaryTier, ts[1..]).rest;
      SkipsNoEofTransitive(ts, ts[1..], ParseAt(UnaryTier, ts).rest);
    } else {
      PrimarySkipsNoEof(ts);
    }
  }

  /** `primary()` consumes a literal token, or a parenthesised expression,
      or nothing. */
  lemma {:induction false} PrimarySkipsNoEof(ts: seq<Token>)
    requires Terminated(ts)
    ensures SkipsNoEof(ts, ParseAt(PrimaryTier, ts).rest)
    decreases |ts|, 0, 1
  {
    if Matches(ts, [LeftParen]) && !Matches(ts, [False]) && !Matches(ts, [True]) && !Matches(ts, [Nil])
       && !Matches(ts, [Number, String]) {
      PrimaryGrouping(ts);
      SkipsNoEofStep(ts);
      GroupingSkipsNoEof(ts[1..]);
      SkipsNoEofTransitive(ts, ts[1..], ParseAt(PrimaryTier, ts).rest);
    } else if ts[0].kind != Eof {
      SkipsNoEofStep(ts);
    }
  }

  /** After `(`: the expression, then `)` only when it is there. */
  lemma {:induction false} GroupingSkipsNoEof(ts: seq<Token>)
    requires Terminated(ts)
    ensures SkipsNoEof(ts, ParseGroupingRest(ts).rest)
    decreases |ts|, 7, 0
  {
    var inner := ParseExpression(ts);
    ParseAtSkipsNoEof(EqualityTier, ts);
    if inner.result.Ok? && Check(inner.rest, RightParen) {
      SkipsNoEofStep(inner.rest);
      SkipsNoEofTransitive(ts, inner.rest, inner.rest[1..]);
    }
  }
}
