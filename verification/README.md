# jlox expressions: parser and evaluator

This project models the expression core of jlox, a tree-walking
interpreter for the Lox language, and proves properties of it:

- `lox/Parser.java` is a recursive-descent parser. It holds a fixed token
  list and a cursor `current`, and it turns a token list ending in EOF into
  an expression tree. Parsing goes through six tiers: equality, comparison,
  term, factor, unary and primary.
- `lox/Interpreter.java` evaluates that tree to a Lox value. Lox values
  are `nil`, Booleans, numbers and strings.

The files are:

- `syntax.dfy` (`Syntax`): token types, tokens, values, expression trees,
  the `Result` type, and the two error records.
- `grammar.dfy` (`Grammar`): the parser as functions from the remaining
  tokens to a `Step`, which is a result plus the tokens not consumed. This
  is the specification the class is proved against.
- `parser.dfy` (`Parsing`): the `Parser` class. Its methods mutate
  `current` with the source's loops. Each parsing method is proved to leave
  exactly the result and the cursor that the `Grammar` function for its
  rule gives. Everything proved about `Grammar` therefore holds of the
  class.
- `precedence.dfy` (`Precedence`): which trees each tier can return
  (`InTier`), and how a tree is written out as tokens (`Unparse`). It
  proves the round trip: parsing a tree's tokens gives the tree back. It
  also proves the converse: every tree the parser returns lies in its tier.
  Together these state precedence and left associativity for all inputs.
- `interpreter.dfy` (`Interpreter`): evaluation, truthiness, equality and
  the type checks, with lemmas for each operator.
- `findings.dfy` (`Findings`): the rules exactly as written, whose
  `factor()` groups `*` and `/` to the right, inside parentheses too (see
  "## Findings").
- `examples.dfy` (`Examples`): concrete token lists parsed and trees
  evaluated.

The source does not compile as written. The model follows evident intent
in four places:

- `unary()` builds a unary node, where line 68 passes two arguments to the
  binary constructor.
- `primary()` fails with "Expect expression." at the current token when no
  alternative matches, where lines 73-93 have no return on that path.
- Misspelt names carry no meaning: `ParseErrror`, `curent`, `peek.type()`,
  `instanceof boolean` and `Java.util`.
- The parser has a public entry point, `Parser.Parse`. The source has no
  `parse()` method.

Java exceptions become `Err` results. A parse error carries the token and
message that `error()` reports through `Lox.error` (lox/Parser.java:113).
The Java `ParseError` (lox/Parser.java:7) carries neither. A runtime error
carries the token and message of the Java `RuntimeError`
(lox/Interpreter.java:35, 59, 85). Java `null` is the Lox value `nil`.

## Model

| member | source | states |
|---|---|---|
| Parsing.Parser.constructor | lox/Parser.java:12-14 | a new parser holds the given tokens with the cursor at 0 |
| Parsing.Parser.IsAtEnd | lox/Parser.java:153-155 | true exactly when the current token is EOF, which is exactly when `check` fails for every token type |
| Parsing.Parser.Peek | lox/Parser.java:157-159 | returns the first token not yet consumed |
| Parsing.Parser.Previous | lox/Parser.java:161-163 | returns the token just before the cursor |
| Parsing.Parser.Check | lox/Parser.java:139-144 | false at EOF; otherwise true exactly when the current token has the type; a true check means a non-EOF token is there to consume |
| Parsing.Parser.Advance | lox/Parser.java:146-151 | moves the cursor by one unless it is on EOF, then returns the token behind the cursor; that is the old current token when it was not EOF |
| Parsing.Parser.Match | lox/Parser.java:95-103 | true exactly when the current token is not EOF and its type is among the given types; the cursor advances by exactly one in that case and is unchanged otherwise |
| Parsing.Parser.Consume | lox/Parser.java:105-110 | when `check(type)` holds, returns the current token and advances by one; otherwise fails with that token and the given message and does not move |
| Parsing.Parser.Synchronize | lox/Parser.java:117-137 | the cursor ends at `SynchronizeTarget`: unchanged on EOF, otherwise the first position after the start that is EOF, follows a `;`, or begins a statement keyword |
| Parsing.Parser.Parse | lox/Parser.java:16-18 | result and new cursor are exactly those of `Grammar.ParseExpression` on the remaining tokens, and no token the cursor passed is EOF |
| Parsing.Parser.Expression | lox/Parser.java:16-18 | result and new cursor are those of `Grammar.ParseExpression` |
| Parsing.Parser.Equality | lox/Parser.java:20-29 | result and new cursor are those of the equality tier of `Grammar.ParseAt` (a left fold of `!=`/`==` over comparisons) |
| Parsing.Parser.Comparison | lox/Parser.java:31-40 | result and new cursor are those of the comparison tier of `Grammar.ParseAt` |
| Parsing.Parser.Term | lox/Parser.java:42-51 | result and new cursor are those of the term tier of `Grammar.ParseAt` |
| Parsing.Parser.Factor | lox/Parser.java:53-62 | result and new cursor are those of the factor tier of `Grammar.ParseAt`; the right operand is a unary (corrected, see Findings) |
| Parsing.Parser.Unary | lox/Parser.java:64-71 | result and new cursor are those of `Grammar.ParseUnary` |
| Parsing.Parser.Primary | lox/Parser.java:73-93 | result and new cursor are those of `Grammar.ParsePrimary`: a literal, a grouping, or "Expect expression." at the current token |
| Parsing.Parser.GroupingRest | lox/Parser.java:88-92 | after `(`: an expression then a mandatory `)`, as `Grammar.ParseGroupingRest` |
| Parsing.ParseTokens | lox/Parser.java:12-18 | a fresh parser run once on the tokens returns `Grammar.Parse(tokens)`, so the outcome depends on the tokens alone |
| Grammar.ParseExpression | lox/Parser.java:16-18 | the cursor never moves backwards: the rest still ends in EOF and is no longer than the input; a success consumes at least one token and yields a well-formed tree; an error names the token the cursor stopped on (that no EOF is consumed is `Grammar.ParseAtSkipsNoEof`) |
| Grammar.Parse | lox/Parser.java:16-18 | the entry point's result: a successful parse is a well-formed tree (and lies in the equality tier, by `Precedence.ParsedInTier`) |
| Grammar.ParseAt | lox/Parser.java:16-93 | the same guarantees for the rule of every tier |
| Grammar.ParseBinaryTier | lox/Parser.java:20-62 | the same guarantees for the four binary tiers |
| Grammar.FoldTier | lox/Parser.java:22-26 | the operator loop never moves backwards (the rest still ends in EOF and is no longer than the input) and keeps trees well formed (that no EOF is consumed is `Grammar.FoldSkipsNoEof`) |
| Grammar.ParseUnary | lox/Parser.java:64-71 | the same guarantees for `unary()` |
| Grammar.ParsePrimary | lox/Parser.java:73-93 | the same guarantees for `primary()` |
| Grammar.LiteralAfter | lox/Parser.java:74-86 | a literal alternative consumes exactly the current token and yields that literal |
| Grammar.ParseGroupingRest | lox/Parser.java:88-92 | the same guarantees for the tail of a parenthesised expression |
| Grammar.ParseAtSkipsNoEof | lox/Parser.java:16-93 | the rule of every tier leaves a suffix of its input and consumes no EOF token, because `isAtEnd()` stops `match` and `check` at the first EOF |
| Grammar.FoldSkipsNoEof | lox/Parser.java:22-26 | the loop of a binary tier consumes only operators and operands, never an EOF token |
| Grammar.UnarySkipsNoEof | lox/Parser.java:64-71 | `unary()` consumes no EOF token |
| Grammar.PrimarySkipsNoEof | lox/Parser.java:73-93 | `primary()` consumes a literal, a parenthesised expression or nothing, never an EOF token |
| Grammar.GroupingSkipsNoEof | lox/Parser.java:88-92 | after `(`, the expression and `)` consume no EOF token; a missing `)` at EOF leaves the EOF in place |
| Grammar.BinaryTierUnfold | lox/Parser.java:20-26 | a binary tier fails when its first operand fails, and otherwise folds from where that operand stopped |
| Grammar.FoldTierUnfold | lox/Parser.java:22-26 | the loop stops on a token that is not one of its operators, or is EOF; on an operator it consumes the token, parses the next tighter tier, and folds a binary node with the previous tree as the left child |
| Grammar.PrimaryLiteral | lox/Parser.java:74-86 | `false`, `true`, `nil`, and NUMBER or STRING tokens give the matching literal and consume one token |
| Grammar.PrimaryGrouping | lox/Parser.java:88-89 | `(` is consumed and parsing continues with an expression |
| Grammar.PrimaryError | lox/Parser.java:73-93 | on any other token, `primary()` fails with "Expect expression." at that token and does not move |
| Grammar.GroupingRestUnfold | lox/Parser.java:89-91 | inside parentheses, an expression error propagates; a missing `)` fails with "Expect ')' after expression." at the token found; otherwise the result is a grouping node |
| Grammar.NextBoundary | lox/Parser.java:120-136 | the first position at or after the start where the loop of `synchronize()` stops, with no stop position and no EOF before it |
| Grammar.SynchronizeTarget | lox/Parser.java:117-137 | `synchronize()` stays put on EOF; otherwise it moves past the current token and stops at the first EOF, after a `;`, or before `class`, `fun`, `var`, `for`, `if`, `while`, `print` or `return`, skipping every earlier boundary and no EOF token |
| Precedence.OperatorTier | lox/Parser.java:20-62 | assigns each operator type to the one binary tier whose loop matches it; every other type gets no tier |
| Precedence.OperatorTierExact | lox/Parser.java:20-62 | a type is among a tier's operators exactly when it is assigned to that tier |
| Precedence.InTierWellFormed | lox/Parser.java:64-71 | trees the tiers can return use only unary operators in unary nodes and binary operators in binary nodes |
| Precedence.LiteralToken | lox/Parser.java:73-86 | the token for a value is one of the five kinds `primary()` accepts as literals |
| Precedence.LiteralTokenParses | lox/Parser.java:74-86 | every value has a token that `primary()` turns into that literal, consuming exactly that token |
| Precedence.ParseUnparse | lox/Parser.java:16-93 | the rule of a tier reads back any tree of that tier from its tokens and stops exactly after them, when the next token does not continue its loops |
| Precedence.PrimaryUnparse | lox/Parser.java:73-93 | `primary()` reads back a literal or a parenthesised tree |
| Precedence.GroupingUnparse | lox/Parser.java:88-92 | `primary()` reads back `(`, a tree, `)` as a grouping of that tree |
| Precedence.UnaryUnparse | lox/Parser.java:64-71 | `unary()` reads back any chain of prefix operators as nested unary nodes |
| Precedence.FoldUnparse | lox/Parser.java:20-62 | a binary tier reaches its loop with the whole tree built, so a chain of one tier's operators folds to the left |
| Precedence.FoldUnparseOperator | lox/Parser.java:22-26 | one turn of the loop adds the right operand of a node of the tier's own operator |
| Precedence.UnparseRoundTrip | lox/Parser.java:16-18 | parsing the tokens of any tree in the equality tier, followed by EOF, returns that tree |
| Precedence.ParsedInTier | lox/Parser.java:16-93 | every tree a tier's rule returns is in that tier: operators of tighter tiers sit below looser ones, and right operands of a binary tier are of the next tighter tier (left associativity) |
| Precedence.BinaryTierInTier | lox/Parser.java:20-62 | a binary tier returns trees of that tier |
| Precedence.FoldInTier | lox/Parser.java:22-26 | the loop keeps the tree built so far in its tier |
| Precedence.UnaryInTier | lox/Parser.java:64-71 | `unary()` returns only prefix chains over primaries |
| Precedence.PrimaryInTier | lox/Parser.java:73-93 | `primary()` returns only literals and groupings |
| Precedence.LeadingErrorPropagates | lox/Parser.java:20-71 | when the leading primary fails, every tier fails with the same error at the same place |
| Precedence.MissingRightParen | lox/Parser.java:88-90 | `(` and an expression not followed by `)` fail with "Expect ')' after expression." at the token after the expression |
| Interpreter.IsTruthy | lox/Interpreter.java:99-107 | false exactly for `nil` and `false`; `0` and `""` are truthy |
| Interpreter.IsEqual | lox/Interpreter.java:88-97 | true exactly when the two values are equal; `nil` equals only `nil`; values of different types are never equal |
| Interpreter.BoxEquals | lox/Interpreter.java:95 | `equals` on a non-null Boolean, Double or String holds exactly for an equal value of the same type |
| Interpreter.CheckNumberOperand | lox/Interpreter.java:31-36 | succeeds exactly on a number and returns it; otherwise fails at the operator with "Operand must be a number." |
| Interpreter.CheckNumberOperands | lox/Interpreter.java:81-86 | succeeds exactly when both are numbers and returns them; otherwise fails at the operator with "Operands must be numbers." |
| Interpreter.Divide | lox/Interpreter.java:48 | for a non-zero divisor, the quotient times the divisor is the dividend |
| Interpreter.Multiply | lox/Interpreter.java:51 | dividing the product by a non-zero factor gives back the other factor; a zero factor gives 0 |
| Interpreter.ApplyUnary | lox/Interpreter.java:19-28 | an error names the operator, with "Operand must be a number." |
| Interpreter.ApplyBinary | lox/Interpreter.java:42-78 | an error names the operator; its message is the `+` message for `+` and "Operands must be numbers." for any other operator |
| Interpreter.Evaluate | lox/Interpreter.java:5-79 | a literal evaluates to its stored value; any runtime error names an operator token of the tree, with one of the three messages |
| Interpreter.GroupingsAreTransparent | lox/Interpreter.java:4-12 | a grouping evaluates exactly as its inner expression, so removing every grouping changes no result |
| Interpreter.NotNegatesTruthiness | lox/Interpreter.java:19-23 | `!x` fails only as `x` does and otherwise is the negated truthiness of `x`, on any operand type |
| Interpreter.NegateRequiresNumber | lox/Interpreter.java:20-26 | `-x` fails as `x` does when `x` fails; otherwise it succeeds exactly when `x` is a number and then negates it, and fails at the operator on any other value |
| Interpreter.NumericOperatorsRequireNumbers | lox/Interpreter.java:43-71 | `-`, `/`, `*`, `>`, `>=`, `<`, `<=` succeed exactly on two numbers, compute the arithmetic or comparison, and otherwise fail at the operator with "Operands must be numbers." |
| Interpreter.PlusAddsOrConcatenates | lox/Interpreter.java:52-59 | `+` adds two numbers, concatenates two strings, and fails on every other pair with "Operands must be two numbers or two strings." |
| Interpreter.BangEqualNegatesEqualEqual | lox/Interpreter.java:72-75 | `==` and `!=` never fail on any pair of values; `==` is value equality and `!=` its negation |
| Interpreter.LeftOperandFirst | lox/Interpreter.java:39-41 | the left operand's error wins over the right's; the right's error wins over the operator's |
| Interpreter.NilOnlyFromNilLiteral | lox/Interpreter.java:28 | in a well-formed tree the operator switches never fall through to `return null`, so `nil` comes only from a `nil` literal |
| Findings.ParseAtAsWritten | lox/Parser.java:16-93 | the rules as written, every tier and parentheses included, move forward, leave a rest that still ends in EOF, and build well-formed trees; an error names the token where the cursor stopped |
| Findings.FoldAsWritten | lox/Parser.java:20-62 | the loop of a binary tier as written, whose right operand for `*` and `/` is a whole `factor()` (line 57), keeps the same guarantees and stops only on a token that is no operator of its tier |
| Findings.ParseUnaryAsWritten | lox/Parser.java:64-71 | `unary()` in the as-written rules keeps the same guarantees |
| Findings.ParsePrimaryAsWritten | lox/Parser.java:73-93 | `primary()` in the as-written rules keeps the same guarantees; its parentheses go back to the as-written equality tier |
| Findings.ParseGroupingRestAsWritten | lox/Parser.java:88-92 | the tail of a parenthesised expression as written keeps the same guarantees |
| Findings.BinaryAsWrittenUnfold | lox/Parser.java:53-59 | a binary tier as written is its first operand followed by its loop |
| Findings.PrimaryAsWrittenGrouping | lox/Parser.java:88-89 | as written, `primary()` on `(` continues with the as-written tail |
| Findings.PrimaryAsWrittenOther | lox/Parser.java:74-93 | as written, `primary()` on any token but `(` consumes that one token or nothing, and nothing at EOF |
| Findings.AsWrittenSkipsNoEof | lox/Parser.java:16-93 | as written, every tier leaves a suffix of its input and consumes no EOF token |
| Findings.BinaryAsWrittenSkipsNoEof | lox/Parser.java:20-62 | as written, a binary tier consumes no EOF token |
| Findings.FoldAsWrittenSkipsNoEof | lox/Parser.java:55-59 | as written, the loop of a binary tier, right-recursive `factor()` included, consumes no EOF token |
| Findings.UnaryAsWrittenSkipsNoEof | lox/Parser.java:64-71 | as written, `unary()` consumes no EOF token |
| Findings.PrimaryAsWrittenSkipsNoEof | lox/Parser.java:73-93 | as written, `primary()` consumes no EOF token |
| Findings.GroupingAsWrittenSkipsNoEof | lox/Parser.java:88-92 | as written, the expression and `)` after `(` consume no EOF token |
| Findings.FactorAsWrittenOperand | lox/Parser.java:53-54 | as written, a factor whose first unary operand fails fails with it, and a first operand not followed by `*` or `/` is the whole factor, for every token list |
| Findings.FactorAsWrittenNests | lox/Parser.java:55-58 | as written, for every token list, a first operand followed by `*` or `/` becomes the left child of a node whose right child is the factor parsed, as written, from the tokens after the operator; that factor takes every further `*` and `/`, so the loop turns at most once and chains nest to the right |
| Findings.UnaryAsWrittenChain | lox/Parser.java:64-86 | as written, `unary()` reads back a chain of prefix operators over a literal |
| Findings.PrefixChainNestsAsWritten | lox/Parser.java:53-58 | as written, an operand without parentheses followed by `*` or `/` is the left child of the node whose right child is the factor after the operator |
| Findings.AsWrittenLift | lox/Parser.java:20-51 | as written, a factor followed by a token that continues no looser loop is also the result of every looser tier |
| Findings.ShortChainAsWritten | lox/Parser.java:53-62 | as written, `4 / 2` followed by anything but `*` or `/` is one division node |
| Findings.DivisionChainAsWritten | lox/Parser.java:57 | as written, `8 / 4 / 2` followed by anything but `*` or `/` parses as `8 / (4 / 2)` |
| Findings.FactorAsWrittenGroupsRight | lox/Parser.java:57 | as written, `8 / 4 / 2` parses as `8 / (4 / 2)`, which evaluates to 4 |
| Findings.GroupedChainInsideAsWritten | lox/Parser.java:88-92 | as written, the inside of `( 8 / 4 / 2 )` is `8 / (4 / 2)` and the `)` is consumed |
| Findings.GroupedChainOperandAsWritten | lox/Parser.java:64-92 | as written, `( 8 / 4 / 2 )` is a primary operand: the grouping of `8 / (4 / 2)` |
| Findings.GroupedChainAsWritten | lox/Parser.java:57 | as written, parentheses do not help: `( 8 / 4 / 2 )` parses as the grouping of `8 / (4 / 2)`, which evaluates to 4 |
| Findings.GroupedChainFoldsLeft | lox/Parser.java:53-62 | with `unary()` as the right operand, `( 8 / 4 / 2 )` parses as the grouping of `(8 / 4) / 2`, which evaluates to 1 |
| Findings.FactorGroupsLeft | lox/Parser.java:53-62 | with `unary()` as the right operand, `8 / 4 / 2` parses as `(8 / 4) / 2`, which evaluates to 1 |
| Examples.ProductBindsTighterThanSum | lox/Parser.java:42-62 | `1 + 2 * 3` parses with the product as the right operand of the sum |
| Examples.SumOfProductIsSeven | lox/Interpreter.java:49-54 | that tree evaluates to 7 |
| Examples.GroupingOverridesPrecedence | lox/Parser.java:88-92 | `(1 + 2) * 3` parses with the grouped sum as the left operand of the product |
| Examples.ProductOfGroupingIsNine | lox/Interpreter.java:10-12 | that tree evaluates to 9 |
| Examples.DifferenceFoldsLeft | lox/Parser.java:42-51 | `8 - 4 - 2` parses as `(8 - 4) - 2` |
| Examples.DifferenceChainIsTwo | lox/Interpreter.java:43-45 | that tree evaluates to 2 |
| Examples.ComparisonUnderEquality | lox/Parser.java:20-40 | `1 < 2 == true` parses with the comparison under the equality |
| Examples.ComparisonEqualityIsTrue | lox/Interpreter.java:66-75 | that tree evaluates to `true` |
| Examples.PrefixOperatorsNest | lox/Parser.java:64-71 | `!!nil` parses as two nested unary nodes |
| Examples.DoubleNotIsFalse | lox/Interpreter.java:22-23 | that tree evaluates to `false` |
| Examples.UnclosedGroupingFailsAtEof | lox/Parser.java:88-90 | `(1 + 2` fails at the EOF token with "Expect ')' after expression." |
| Examples.PlusOnStrings | lox/Interpreter.java:52-59 | `"a" + "b"` is `"ab"`; `"a" + 1` fails at the `+` token |
| Examples.TypeErrors | lox/Interpreter.java:31-86 | `-"x"` and `1 < "a"` fail at their operator with the operand messages |
| Examples.TruthinessAndEquality | lox/Interpreter.java:88-107 | `!0` and `!""` are false; `nil == nil`; `nil != false`; `1 != "1"` |

## Left out

- ParseExpression: its ensures say only that the rest still ends in EOF; that no EOF token is consumed, even one before the last, is the separate lemma `Grammar.ParseAtSkipsNoEof`, kept out of the contract so that the proofs of the parser's methods stay small.
- ParseAt: the same; the no-EOF guarantee is `Grammar.ParseAtSkipsNoEof`.
- ParseBinaryTier: the same; the no-EOF guarantee is `Grammar.ParseAtSkipsNoEof`.
- FoldTier: the same; the no-EOF guarantee is `Grammar.FoldSkipsNoEof`.
- ParseUnary: the same; the no-EOF guarantee is `Grammar.UnarySkipsNoEof`.
- ParsePrimary: the same; the no-EOF guarantee is `Grammar.PrimarySkipsNoEof`.
- ParseGroupingRest: the same; the no-EOF guarantee is `Grammar.GroupingSkipsNoEof`.
- ParseAtAsWritten: the same; the no-EOF guarantee is `Findings.AsWrittenSkipsNoEof`.
- FoldAsWritten: the same; the no-EOF guarantee is `Findings.FoldAsWrittenSkipsNoEof`.
- ParseUnaryAsWritten: the same; the no-EOF guarantee is `Findings.UnaryAsWrittenSkipsNoEof`.
- ParsePrimaryAsWritten: the same; the no-EOF guarantee is `Findings.PrimaryAsWrittenSkipsNoEof`.
- ParseGroupingRestAsWritten: the same; the no-EOF guarantee is `Findings.GroupingAsWrittenSkipsNoEof`.
- Error reporting through `Lox.error` (lox/Parser.java:112-115) is a side
  effect on the driver, and Lox.java is not part of this model. The
  `Err` result carries the token and message passed to `Lox.error`
  instead. The Java exception that `error()` returns has no fields.
- Exceptions are not modelled as control flow. A `throw` becomes an `Err`
  result, and every caller passes it on unchanged, as the unwinding would.
- The source never calls `synchronize()`. `Parser.Synchronize` is modelled
  on its own, and no driver loop parses statements after an error.
- The lexer, `Token.java`, `Expr.java` and `Lox.java` are not part of this
  model. Tokens and trees are datatypes; a token's line number is carried
  but never used.
- `previous()` at cursor 0 would read index -1, whatever the token there;
  `Parser.Previous` requires the cursor to be past 0, which holds at every
  call in the source. `advance()` reaches that read only on EOF at cursor
  0, so `Parser.Advance` requires the cursor to be past 0 or not on EOF. `Parser.Synchronize` carries the same
  requirement, because it begins with an unconditional `advance()`
  (lox/Parser.java:118).
- Interpreter.Divide: numbers are exact reals, not IEEE doubles. Division by
  zero returns 0 here; Java gives an infinity or NaN. Rounding is also not
  modelled.
- Interpreter.IsEqual: `Double.equals` treats NaN as equal to itself and
  `0.0` as different from `-0.0`. With exact reals neither case exists.
- Visitor dispatch (`accept`, lox/Interpreter.java:14-16) is a `match` on the
  tree.
- Deep recursion on deeply nested input, which overflows the Java stack, is
  not modelled.

## Findings

| source | as written | input that shows it | evidently intended | confidence | as-written member | corrected member |
|---|---|---|---|---|---|---|
| lox/Parser.java:57 | the right operand of `*` and `/` is parsed with `factor()`, so the loop recurses to the right | `8 / 4 / 2` parses as `8 / (4 / 2)` and evaluates to 4 | `unary()` as the right operand, folding left like the other tiers: `(8 / 4) / 2`, which is 1 | high; not executed | Findings.FactorAsWrittenGroupsRight | Findings.FactorGroupsLeft |
