/** lox/Parser.java: a recursive-descent parser over an immutable token list
    with one cursor, `current`, that only moves forward. Every parsing method
    is proved to leave the parser exactly as the corresponding function of
    `Grammar` says, so what is proved about those functions holds of the
    class. Java's `ParseError` exception becomes an `Err` result; reporting
    through `Lox.error` is not part of this model. */
module Parsing {
  import opened Syntax
  import G = Grammar

  class Parser {
    const tokens: seq<Token>
    var current: nat

    /** The cursor is on the list, and the list ends with the EOF sentinel. */
    ghost predicate Valid()
      reads this
    {
      G.Terminated(tokens) && current < |tokens|
    }

    /** The tokens not yet consumed. */
    ghost function Remaining(): seq<Token>
      reads this
      requires Valid()
    {
      tokens[current..]
    }

    constructor (tokens: seq<Token>)
      requires G.Terminated(tokens)
      ensures Valid() && this.tokens == tokens && current == 0
    {
      this.tokens := tokens;
      current := 0;
    }

    /** `isAtEnd()`: the current token is the EOF sentinel, so `check` fails
        for every token type. */
    predicate IsAtEnd()
      reads this
      requires Valid()
      ensures IsAtEnd() <==> forall kind :: !G.Check(Remaining(), kind)
    {
      assert Peek().kind != Eof ==> G.Check(Remaining(), Peek().kind);
      Peek().kind == Eof
    }

    /** `peek()`: the current token, without moving. */
    function Peek(): (t: Token)
      reads this
      requires Valid()
      ensures t == Remaining()[0]
    {
      tokens[current]
    }

    /** `previous()`: the token just consumed. Index `current - 1` must exist. */
    function Previous(): (t: Token)
      reads this
      requires Valid() && current > 0
      ensures t == tokens[current - 1]
    {
      tokens[current - 1]
    }

    /** `check(type)`: false at EOF, otherwise whether the current token has the type. */
    predicate Check(kind: TokenType)
      reads this
      requires Valid()
      ensures Check(kind) <==> G.Check(Remaining(), kind)
      ensures Check(kind) ==> kind != Eof && 1 < |Remaining()|
    {
      if IsAtEnd() then false else Peek().kind == kind
    }

    /** `advance()`: step over the current token unless it is EOF, and return
        the token now behind the cursor. */
    method Advance() returns (t: Token)
      requires Valid() && (current > 0 || !IsAtEnd())
      modifies this
      ensures Valid() && current > 0
      ensures current == if old(IsAtEnd()) then old(current) else old(current) + 1
      ensures t == tokens[current - 1]
      ensures !old(IsAtEnd()) ==> t == old(Peek())
    {
      if !IsAtEnd() {
        current := current + 1;
      }
      t := Previous();
    }

    /** `match(types...)`: consume the current token if one of `types` checks. */
    method Match(types: seq<TokenType>) returns (matched: bool)
      requires Valid()
      modifies this
      ensures Valid()
      ensures matched <==> G.Matches(old(Remaining()), types)
      ensures current == if matched then old(current) + 1 else old(current)
    {
      for i := 0 to |types|
        invariant current == old(current)
        invariant forall j :: 0 <= j < i ==> !Check(types[j])
      {
        if Check(types[i]) {
          var _ := Advance();
          return true;
        }
      }
      return false;
    }

    /** `consume(type, message)`: take the expected token or fail at the
        current one, without moving. */
    method Consume(kind: TokenType, message: string) returns (r: Result<Token, ParseError>)
      requires Valid()
      modifies this
      ensures Valid()
      ensures old(Check(kind)) ==> r == Ok(old(Peek())) && current == old(current) + 1
      ensures !old(Check(kind)) ==> r == Err(ParseError(old(Peek()), message)) && current == old(current)
    {
      if Check(kind) {
        var t := Advance();
        return Ok(t);
      }
      return Err(ParseError(Peek(), message));
    }

    /** `synchronize()`: after a parse error, discard tokens up to the next
        statement boundary. */
    method Synchronize()
      requires Valid() && (current > 0 || !IsAtEnd())
      modifies this
      ensures Valid()
      ensures current == G.SynchronizeTarget(tokens, old(current))
    {
      var _ := Advance();
      while !IsAtEnd()
        invariant Valid() && current > 0
        invariant old(current) < current || IsAtEnd()
        invariant G.SynchronizeTarget(tokens, old(current)) ==
                  if IsAtEnd() then current else G.NextBoundary(tokens, current)
        decreases |tokens| - current
      {
        if Previous().kind == Semicolon {
          return;
        }
        if G.StatementStart(Peek().kind) {
          return;
        }
        var _ := Advance();
      }
    }

    /** The public entry point: parse one expression. */
    method Parse() returns (r: Result<Expr, ParseError>)
      requires Valid()
      modifies this
      ensures Valid() && G.Step(r, Remaining()) == G.ParseExpression(old(Remaining()))
      ensures forall j :: old(current) <= j < current ==> tokens[j].kind != Eof
    {
      ghost var start := Remaining();
      r := Expression();
      G.ParseAtSkipsNoEof(G.EqualityTier, start);
      forall j | old(current) <= j < current
        ensures tokens[j].kind != Eof
      {
        assert tokens[j] == start[j - old(current)];
      }
    }

    /** `expression()`. */
    method Expression() returns (r: Result<Expr, ParseError>)
      requires Valid()
      modifies this
      ensures Valid() && G.Step(r, Remaining()) == G.ParseExpression(old(Remaining()))
      decreases |tokens| - current, 6
    {
      r := Equality();
    }

    /** `equality()`: `comparison ( ( "!=" | "==" ) comparison )*`, folded left. */
    method Equality() returns (r: Result<Expr, ParseError>)
      requires Valid()
      modifies this
      ensures Valid() && G.Step(r, Remaining()) == G.ParseAt(G.EqualityTier, old(Remaining()))
      decreases |tokens| - current, 5
    {
      ghost var start := Remaining();
      G.BinaryTierUnfold(G.EqualityTier, start);
      var expr :- Comparison();
      while true
        invariant Valid() && old(current) <= current && WellFormed(expr)
        invariant G.FoldTier(G.EqualityTier, Remaining(), expr) == G.ParseAt(G.EqualityTier, start)
        decreases |tokens| - current
      {
        ghost var before := Remaining();
        G.FoldTierUnfold(G.EqualityTier, before, expr);
        var matched := Match([BangEqual, EqualEqual]);
        if !matched {
          return Ok(expr);
        }
        var operator := Previous();
        assert before[1..] == Remaining();
        var right :- Comparison();
        expr := Binary(expr, operator, right);
      }
    }

    /** `comparison()`: `term ( ( ">" | ">=" | "<" | "<=" ) term )*`, folded left. */
    method Comparison() returns (r: Result<Expr, ParseError>)
      requires Valid()
      modifies this
      ensures Valid() && G.Step(r, Remaining()) == G.ParseAt(G.ComparisonTier, old(Remaining()))
      decreases |tokens| - current, 4
    {
      ghost var start := Remaining();
      G.BinaryTierUnfold(G.ComparisonTier, start);
      var expr :- Term();
      while true
        invariant Valid() && old(current) <= current && WellFormed(expr)
        invariant G.FoldTier(G.ComparisonTier, Remaining(), expr) == G.ParseAt(G.ComparisonTier, start)
        decreases |tokens| - current
      {
        ghost var before := Remaining();
        G.FoldTierUnfold(G.ComparisonTier, before, expr);
        var matched := Match([Greater, GreaterEqual, Less, LessEqual]);
        if !matched {
          return Ok(expr);
        }
        var operator := Previous();
        assert before[1..] == Remaining();
        var right :- Term();
        expr := Binary(expr, operator, right);
      }
    }

    /** `term()`: `factor ( ( "+" | "-" ) factor )*`, folded left. */
    method Term() returns (r: Result<Expr, ParseError>)
      requires Valid()
      modifies this
      ensures Valid() && G.Step(r, Remaining()) == G.ParseAt(G.TermTier, old(Remaining()))
      decreases |tokens| - current, 3
    {
      ghost var start := Remaining();
      G.BinaryTierUnfold(G.TermTier, start);
      var expr :- Factor();
      while true
        invariant Valid() && old(current) <= current && WellFormed(expr)
        invariant G.FoldTier(G.TermTier, Remaining(), expr) == G.ParseAt(G.TermTier, start)
        decreases |tokens| - current
      {
        ghost var before := Remaining();
        G.FoldTierUnfold(G.TermTier, before, expr);
        var matched := Match([Plus, Minus]);
        if !matched {
          return Ok(expr);
        }
        var operator := Previous();
        assert before[1..] == Remaining();
        var right :- Factor();
        expr := Binary(expr, operator, right);
      }
    }

    /** `factor()`: `unary ( ( "*" | "/" ) unary )*`, folded left. Parser.java:57
        parses the right operand with `factor()`, which groups `*` and `/` to
        the right; this method uses `unary()` like its sibling tiers (see
        `Findings.FactorAsWrittenGroupsRight`). */
    method Factor() returns (r: Result<Expr, ParseError>)
      requires Valid()
      modifies this
      ensures Valid() && G.Step(r, Remaining()) == G.ParseAt(G.FactorTier, old(Remaining()))
      decreases |tokens| - current, 2
    {
      ghost var start := Remaining();
      G.BinaryTierUnfold(G.FactorTier, start);
      var expr :- Unary();
      while true
        invariant Valid() && old(current) <= current && WellFormed(expr)
        invariant G.FoldTier(G.FactorTier, Remaining(), expr) == G.ParseAt(G.FactorTier, start)
        decreases |tokens| - current
      {
        ghost var before := Remaining();
        G.FoldTierUnfold(G.FactorTier, before, expr);
        var matched := Match([Star, Slash]);
        if !matched {
          return Ok(expr);
        }
        var operator := Previous();
        assert before[1..] == Remaining();
        var right :- Unary();
        expr := Binary(expr, operator, right);
      }
    }

    /** `unary()`: `( "!" | "-" ) unary | primary`. */
    method Unary() returns (r: Result<Expr, ParseError>)
      requires Valid()
      modifies this
      ensures Valid() && G.Step(r, Remaining()) == G.ParseAt(G.UnaryTier, old(Remaining()))
      decreases |tokens| - current, 1
    {
      ghost var before := Remaining();
      var matched := Match([Bang, Minus]);
      if matched {
        var operator := Previous();
        assert before[1..] == Remaining();
        var right :- Unary();
        return Ok(Expr.Unary(operator, right));
      }
      r := Primary();
    }

    /** `primary()`: literals, or `"(" expression ")"`. */
    method Primary() returns (r: Result<Expr, ParseError>)
      requires Valid()
      modifies this
      ensures Valid() && G.Step(r, Remaining()) == G.ParseAt(G.PrimaryTier, old(Remaining()))
      decreases |tokens| - current, 0
    {
      ghost var before := Remaining();
      var matched := Match([False]);
      if matched {
        assert before[1..] == Remaining();
        G.PrimaryLiteral(before, BoolValue(false));
        return Ok(Literal(BoolValue(false)));
      }
      matched := Match([True]);
      if matched {
        assert before[1..] == Remaining();
        G.PrimaryLiteral(before, BoolValue(true));
        return Ok(Literal(BoolValue(true)));
      }
      matched := Match([Nil]);
      if matched {
        assert before[1..] == Remaining();
        G.PrimaryLiteral(before, NilValue);
        return Ok(Literal(NilValue));
      }
      matched := Match([Number, String]);
      if matched {
        assert before[1..] == Remaining();
        G.PrimaryLiteral(before, Previous().literal);
        return Ok(Literal(Previous().literal));
      }
      matched := Match([LeftParen]);
      if matched {
        assert before[1..] == Remaining();
        G.PrimaryGrouping(before);
        r := GroupingRest();
        return;
      }
      G.PrimaryError(before);
      return Err(ParseError(Peek(), G.ExpressionMessage));
    }

    /** The `(` branch of `primary()` after the parenthesis: an expression,
        then a mandatory `)`. */
    method GroupingRest() returns (r: Result<Expr, ParseError>)
      requires Valid()
      modifies this
      ensures Valid() && G.Step(r, Remaining()) == G.ParseGroupingRest(old(Remaining()))
      decreases |tokens| - current, 7
    {
      G.GroupingRestUnfold(tokens, current);
      var expr :- Expression();
      var _ :- Consume(RightParen, G.RightParenMessage);
      return Ok(Grouping(expr));
    }
  }

  /** `parse(tokens)` as the driver sees it: a fresh parser over the tokens,
      run once. The result depends on the tokens alone. */
  method ParseTokens(tokens: seq<Token>) returns (r: Result<Expr, ParseError>)
    requires G.Terminated(tokens)
    ensures r == G.Parse(tokens)
  {
    var parser := new Parser(tokens);
    r := parser.Parse();
  }
}
