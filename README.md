# Expression trees and the simple expression parser

This project models the core of a one-variable graphing calculator. It has two parts:

- the expression tree (literal, variable, parenthetical, additive, multiplicative and
  exponential/logarithm nodes) with evaluation, the shared operator table, symbolic
  differentiation, deep copy and the indented one-node-per-line rendering;
- `SimpleExpressionParser`, a string-scanning recursive-descent parser that builds those
  trees.

Modules:

- `Expressions` (`expression.dfy`): the `Expr` datatype, one constructor per node class, and
  `Eval` over the six-operator table `Operation`. Floating-point arithmetic is a
  parameter `ar: Arith` of six uninterpreted operations. `RealArith(ar)` makes `+`, `-` and
  `*` exact, makes `/` exact for a non-zero divisor, and fixes `pow(q, 2) = q*q`; `ln` and
  other powers stay free.
- `Calculus` (`calculus.dfy`): `DeepCopy`, and `Derivative` with every rule as the code
  builds it. `Slope` is the textbook derivative, an independent reference
  that the code's rules are proved against.
- `Rendering` (`rendering.dfy`): `OpToString` (opToString) and `ToString`
  (convertToString). The text of a float literal is a parameter `show`.
- `FloatLiteral` (`float_literal.dfy`): the decimal floating-point literals the literal
  level accepts, and their exact values.
- `Grammar` (`grammar.dfy`): each parser level as a function.
  - The outcome of a level is `Ok(tree)`, `NoMatch` (the code's `null`) or `Crash`, an
    index exception that escapes every level.
  - `At` is one loop-body step; `Scan` runs a level's loop.
- `Parser` (`parser.dfy`): the parser as written, one method per level with its `for`
  loop and early returns. Each method is proved to compute exactly its `Grammar`
  function.
- `GrammarFacts` (`grammar_facts.dfy`): the leftmost-split rule of each loop, what `parse`
  reduces to, the inputs that end in an index error, and the unchecked characters of the
  logarithm branch.
- `Scenarios` (`scenarios.dfy`): the repository's test inputs, parsed, rendered and
  evaluated. Where a test expects something the code does not yield, the lemma states
  what the code yields.

Where the source's comments and tests disagree with the code, the model follows the code.
The comments are the grammar at SimpleExpressionParser.java:8-15, the power-rule comment
at ExponentialExpression.java:106 and the "fully independent" doc comments of
`differentiate`. The tests are the expected outcomes in ExpressionParserTester.java.

- Levels do not always fail by returning `null`. An empty substring reaching the
  parenthetical level, or an `l` within the last two positions reaching the logarithm
  loop, throws an index exception. So `"1+2+"` and `"((()))"` end in `IndexOutOfBounds`, not in
  the parse exception the tests at ExpressionParserTester.java:56-57 and :68-69 catch.
  Likewise `"1./(1. + 5^(-1*x))"` ends in `IndexOutOfBounds`, where the test at
  ExpressionParserTester.java:127-128 expects a value.
- The right side of `+` and `-` is parsed at the exponential level, and both sides of `*`
  and `/` at the additive level. So `"4*(x+5*x)"`
  evaluates to 96 at 3, not the 72 of ExpressionParserTester.java:92. For the same reason
  `"9/3*3"` is 1, not 9 (:110), and `"4-3*x"` at 2.5 is 2.5, not -3.5 (:119).
- The grammar comment's `log(P)` is not checked as text. The logarithm branch looks for
  an `l`, skips the two characters after it unchecked, and ignores everything before it. So `"2log(x)"`
  parses as `log(x)`.
- The general power rule builds `g^h * (g'*h + (h'*g)/h)`, not the
  `g^h * (h'g + g'h/g)` of the comment at ExponentialExpression.java:106.
- The product and quotient derivatives reuse the receiver's children instead of
  copying them, although the doc comment at MultiplicativeExpression.java:56 asks for no
  shared subtrees. On immutable values this cannot be observed.

## Model

| member | source | states |
|---|---|---|
| Expressions.EvalIsExact | OperationHandler.java:11-20 | in exact arithmetic, '+', '-', '*' and '/' evaluate to the arithmetic on the children's values: Eval agrees with the reference ExactValue wherever it is defined |
| Expressions.EvalWithoutVar | LiteralExpression.java:37-39 | a literal's value, and that of every tree without the variable, is the same at every x |
| Calculus.DeepCopy | ExponentialExpression.java:35-41 | the copy equals the original: same operators, values and shape, and a logarithm's copy is again a one-child logarithm |
| Calculus.DerivativeOfConstantIsConstant | LiteralExpression.java:48-50 | differentiating a tree without the variable yields a tree without the variable |
| Calculus.DerivativeParenFree | ParentheticalExpression.java:52-54 | differentiation creates a parenthetical node only from an existing one |
| Calculus.DerivativeOfConstant | MultiplicativeExpression.java:62-77 | when zero is absorbing, the derivative of a tree without the variable evaluates to 0 everywhere |
| Calculus.QuotientRule | MultiplicativeExpression.java:70-76 | in exact arithmetic the code's quotient form f'/g - (f*g')/g^2 equals (f'g - fg')/(g*g) |
| Calculus.RealArithQuotient | MultiplicativeExpression.java:69-77 | exact arithmetic satisfies the quotient rule for every non-zero divisor |
| Calculus.QuotientIsSlope | MultiplicativeExpression.java:69-77 | the quotient rule's tree evaluates to the textbook derivative of f/g when the operands' derivative trees do |
| Calculus.PowerIsSlope | ExponentialExpression.java:82-104 | the literal-base and literal-exponent rules evaluate to the textbook derivative when the operand's derivative tree does |
| Calculus.DerivativeIsSlopeBy | ExponentialExpression.java:75-104 | under the quotient rule, the derivative tree evaluates to the textbook derivative wherever divisors are non-zero and no power is general |
| Calculus.DerivativeIsSlope | MultiplicativeExpression.java:61-78 | in exact arithmetic the derivative tree evaluates to the textbook derivative, under the same conditions |
| Calculus.GeneralPowerRuleAtOne | ExponentialExpression.java:106-122 | the general power rule as built is not the textbook one: for x^x at 1 it gives 2 where the derivative is 1 |
| FloatLiteral.DigitsLiteral | SimpleExpressionParser.java:197 | a run of digits is a literal whose value is its decimal value |
| FloatLiteral.NatTextLiteral | SimpleExpressionParser.java:197 | round trip: the decimal text of n is a literal of value n |
| FloatLiteral.MantissaChars | SimpleExpressionParser.java:197-200 | a mantissa holds only digits and '.', and ends in one of them |
| FloatLiteral.ExponentChars | SimpleExpressionParser.java:179 | an exponent holds only digits and signs, and ends in a digit |
| FloatLiteral.UnsignedChars | SimpleExpressionParser.java:197-211 | an unsigned literal holds only literal characters and ends in a digit, '.' or a type suffix |
| FloatLiteral.LiteralChars | SimpleExpressionParser.java:180-212 | every character of a literal is a digit, sign, '.', 'e', 'E' or suffix, and the last is a digit, '.' or suffix |
| Grammar.AddOpOf | SimpleExpressionParser.java:35 | the additive operator built from '+' or '-' prints as that character |
| Grammar.MulOpOf | SimpleExpressionParser.java:56-63 | the multiplicative operator built from '*' or '/' prints as that character |
| Grammar.Join | SimpleExpressionParser.java:36-40 | a candidate succeeds exactly when both sides parse, and raises exactly when a side raises |
| Grammar.Literal | SimpleExpressionParser.java:173-220 | a literal node comes only from a string ending in a digit, '.' or a type suffix |
| Grammar.At | SimpleExpressionParser.java:34-41 | a candidate's tree has no parenthetical node, and it comes from a string that ends like an operand |
| Grammar.Scan | SimpleExpressionParser.java:33-42 | the same for a loop's result |
| Grammar.Additive | SimpleExpressionParser.java:32-44 | a successful additive parse has no parenthetical node and ends like an operand |
| Grammar.Multiplicative | SimpleExpressionParser.java:53-72 | the same for the multiplicative level |
| Grammar.Exponential | SimpleExpressionParser.java:74-100 | the same for the exponential level |
| Grammar.Parenthetical | SimpleExpressionParser.java:111-121 | the same for the parenthetical level: parentheses never become a node |
| Grammar.StripSpaces | SimpleExpressionParser.java:20 | no space is left, every other character keeps its count, and a string without spaces is unchanged |
| Grammar.Parse | SimpleExpressionParser.java:19-30 | a parsed tree never holds a parenthetical node |
| Parser.ParseAdditiveExpression | SimpleExpressionParser.java:32-44 | the loop with its early returns computes the additive level |
| Parser.ParseMultiplicativeExpression | SimpleExpressionParser.java:53-72 | the loop computes the multiplicative level |
| Parser.ParseExponentialExpression | SimpleExpressionParser.java:74-100 | the '^' loop, the twice-evaluated parenthetical test and the 'l' loop compute the exponential level |
| Parser.ParseParentheticalExpression | SimpleExpressionParser.java:111-121 | the method computes the parenthetical level, the index error on "" included |
| Parser.Parse | SimpleExpressionParser.java:19-30 | the method computes parse: strip, additive, parenthetical, then the parse error |
| GrammarFacts.ScanLeftmost | SimpleExpressionParser.java:33-42 | the leftmost candidate that does not come back empty decides the loop |
| GrammarFacts.ScanNone | SimpleExpressionParser.java:33-43 | a loop comes back empty exactly when every one of its candidates does |
| GrammarFacts.ScanFound | SimpleExpressionParser.java:33-42 | a loop that decides returned its leftmost decisive candidate |
| GrammarFacts.AdditiveLeftmostSplit | SimpleExpressionParser.java:32-44 | at the smallest '+'/'-' whose prefix is multiplicative and suffix exponential, the result is that additive node |
| GrammarFacts.AdditiveFallsThrough | SimpleExpressionParser.java:43 | without '+' and '-' the additive level is the multiplicative level |
| GrammarFacts.AdditiveSkips | SimpleExpressionParser.java:36-40 | the loop's "try the next index" case: an additive candidate with a side that does not parse, and no side raising, is skipped |
| GrammarFacts.MultiplicativeSkips | SimpleExpressionParser.java:56-68 | the loop's "try the next index" case for a multiplicative candidate |
| GrammarFacts.AdditiveFallsThroughAt | SimpleExpressionParser.java:33-43 | with its only additive candidate skipped, the additive level is the multiplicative level |
| GrammarFacts.MultiplicativeFallsThroughAt | SimpleExpressionParser.java:54-71 | with its only multiplicative candidate skipped, the multiplicative level is the exponential level |
| GrammarFacts.MultiplicativeFallsThrough | SimpleExpressionParser.java:71 | without '*' and '/' the multiplicative level is the exponential level |
| GrammarFacts.ExponentialIsParenthetical | SimpleExpressionParser.java:85-87 | without '^' and 'l' the exponential level is the parenthetical level |
| GrammarFacts.MultiplicativeLeftmostSplit | SimpleExpressionParser.java:53-72 | the leftmost '*'/'/' whose two sides parse at the additive level gives the multiplicative node |
| GrammarFacts.ExponentialLeftmostSplit | SimpleExpressionParser.java:74-84 | the leftmost '^' whose two sides parse at the additive level gives the power node |
| GrammarFacts.ParseIsAdditive | SimpleExpressionParser.java:19-30 | the parenthetical retry never succeeds where the additive level failed: parse is the additive result, an empty one becoming the parse error on the stripped string |
| GrammarFacts.StripSpacesAppend | SimpleExpressionParser.java:20 | removing spaces from a concatenation removes them from each part |
| GrammarFacts.EmptyCrashes | SimpleExpressionParser.java:112 | the empty string raises at every level |
| GrammarFacts.StripBlank | SimpleExpressionParser.java:20 | a string of spaces strips to the empty string |
| GrammarFacts.BlankCrashes | SimpleExpressionParser.java:19-30 | parsing a blank string ends in an index error, not a parse error |
| GrammarFacts.LeadingSignCrashes | SimpleExpressionParser.java:35-36 | a leading '+' or '-' raises: its prefix is empty |
| GrammarFacts.TrailingSignCrashes | SimpleExpressionParser.java:35-37 | a trailing '+' or '-' raises: its suffix is empty, and no earlier candidate succeeds |
| GrammarFacts.NoOperatorLevels | SimpleExpressionParser.java:33-98 | without operator characters and 'l', every level is the parenthetical level |
| GrammarFacts.NestedEmptyParenthesesCrash | SimpleExpressionParser.java:111-115 | n nested pairs of empty parentheses raise, whatever n |
| GrammarFacts.LogScanUpTo | SimpleExpressionParser.java:88-98 | the logarithm loop passes over every index that does not hold 'l' |
| GrammarFacts.NotALiteral | SimpleExpressionParser.java:214-219 | a string holding a character no literal holds is not a literal |
| GrammarFacts.NoCaretExponential | SimpleExpressionParser.java:75-98 | without '^' the exponential level is the parenthetical level, else the logarithm loop |
| GrammarFacts.FirstLogArgument | SimpleExpressionParser.java:85-98 | a string with an 'l' that is not parenthetical takes its first 'l', with the argument three characters on |
| GrammarFacts.NotParenthetical | SimpleExpressionParser.java:111-121 | an unwrapped string that is not "x" and holds a non-literal character is not parenthetical |
| GrammarFacts.VariableLevels | SimpleExpressionParser.java:164-170 | "x" is the variable at every level |
| GrammarFacts.DigitsLevels | SimpleExpressionParser.java:116-120 | a run of digits is, at every level, the literal of its decimal value |
| GrammarFacts.NaturalParses | SimpleExpressionParser.java:214-217 | the decimal text of every natural number parses to the literal of that value |
| GrammarFacts.LogBranchSkipsUnchecked | SimpleExpressionParser.java:88-96 | the characters before the 'l' and the two after it are never checked: p + "l" + [a, b] + t parses as "log" + t |
| Rendering.Tabs | OperationHandler.java:40 | n tab characters |
| Rendering.EndsWithNewline | OperationHandler.java:38-46 | every rendering ends with a newline |
| Rendering.LineCount | OperationHandler.java:38-46 | with single-line literal texts, a rendering has exactly one line per node |
| Rendering.IndentShift | OperationHandler.java:40-45 | rendering at n + 1 is rendering at n with one more tab at the start of every line |
| Rendering.ParenFreeRendering | OperationHandler.java:39-41 | a tree without parenthetical nodes renders without '(' |
| Scenarios.RenderSumOfVariables | AdditiveExpression.java:39-41 | x+x renders as "+\n\tx\n\tx\n" |
| Scenarios.SumOfVariables | ExpressionParserTester.java:26-28 | "x+x" parses to x + x, rendered "+\n\tx\n\tx\n" |
| Scenarios.RenderProductOfLiteralAndVariable | LiteralExpression.java:27-29 | 13 * x renders as "*\n\t13.0\n\tx\n" when 13 prints as "13.0" |
| Scenarios.ProductOfLiteralAndVariable | ExpressionParserTester.java:36-38 | "13*x" parses to 13 * x, rendered "*\n\t13.0\n\tx\n" |
| Scenarios.VariableAtTwo | ExpressionParserTester.java:100-101 | "x" parses to the variable, which evaluates to 2 at 2 |
| Scenarios.FirstEvaluation | ExpressionParserTester.java:91-92 | "4*(x+5*x)" parses as 4 * ((x+5) * x), which is 96 at 3 (the test's 72 does not hold) |
| Scenarios.QuotientEvaluation | ExpressionParserTester.java:109-110 | "9/3*3" parses as 9 / (3*3), which is 1 at 333 (the test's 9 does not hold) |
| Scenarios.DifferenceEvaluation | ExpressionParserTester.java:118-119 | "4-3*x" parses as (4-3) * x, which is 2.5 at 2.5 (the test's -3.5 does not hold) |
| Scenarios.PowerTree | SimpleExpressionParser.java:74-84 | "4^3^2" parses as 4^(3^2) |
| Scenarios.PowerEvaluation | ExpressionParserTester.java:136-137 | "4^3^2" evaluates to 262144 |
| Scenarios.LogEvaluation | ExpressionParserTester.java:154-155 | "log(x*2)" parses as log(x*2), whose value at 11 truncates to 3 |
| Scenarios.AdjacentParentheses | ExpressionParserTester.java:80-81 | "()()" is a parse error carrying "()()" |
| Scenarios.TrailingPlus | ExpressionParserTester.java:56-57 | "1+2+" ends in an index error |
| Scenarios.NestedEmptyParentheses | ExpressionParserTester.java:68-69 | "((()))" ends in an index error |
| Scenarios.ParsedRendering | SimpleExpressionParser.java:111-115 | no parsed tree renders with '(' |
| Scenarios.ParenthesisedRenderingUnreachable | ExpressionParserTester.java:46-47 | no input parses to a tree rendered as the test's expected text, which has a "()" line |
| Scenarios.LogisticCrashes | ExpressionParserTester.java:127-128 | "1./(1. + 5^(-1*x))" ends in an index error |
| Scenarios.LogAfterDigit | SimpleExpressionParser.java:88-98 | "2log(x)" parses as log(x) |

## Left out

- Floating point: a literal holds an exact `real`, not the 32-bit float `Float.parseFloat`
  gives. Evaluation uses the parameter `Arith`, so the rounding of `+ - * /`, `Math.pow`,
  `Math.log`, Infinity and NaN are not modelled. Results about values assume `RealArith`,
  or name the value of `pow` or `ln` they need.
- `Float.toString` is the parameter `show` of the rendering, so `13` printing as `13.0` is
  an assumption of the lemmas that need it.
- `deepCopy` of a literal goes through `Float.toString` and `Float.parseFloat`. The model
  copies the value itself.
- The literal regex is covered only for decimal literals: an optional sign, a mantissa, an
  optional exponent and an optional type suffix. `NaN`, `Infinity`, hexadecimal literals
  and the leading and trailing control characters it allows are not modelled.
- The `IllegalArgumentException` branch of `operation`: with the closed `Op` type no other
  operator reaches the table.
- `GraphingCalculator.java` (user interface), the demo `main`, and the commented-out stack
  code of the parser are not part of this model.
- The `Expression`, `ExpressionParser` and `ExpressionParseException` types are not part of
  this model. `ParseResult` stands in for the tree or the exception: a `ParseError` with
  its message, or an `IndexOutOfBounds` for an index exception raised inside a level.
- Object identity: the derivative reusing the receiver's children, and the sharing the
  `deepCopy` and `differentiate` doc comments forbid (MultiplicativeExpression.java:56,
  ExponentialExpression.java:69), cannot be observed on immutable values.
- Character width: Java's `charAt`, `substring` and `length` count UTF-16 code units, and
  a Dafny `char` is a Unicode scalar value. On input outside the Basic Multilingual Plane,
  the logarithm branch's three-position skip and the index-error edge therefore fall on
  different characters than in the Java.
- Stack depth: the Java parser and the tree recursions can raise StackOverflowError on
  deeply nested input. The model's recursion has no depth limit.
- Running time: the backtracking search is exponential in the worst case.
- Calculus.Derivative: its rules are its definition. Its contract is the lemmas beside
  it: the textbook derivative (`DerivativeIsSlope`), constants and parenthetical nodes.
  The general power rule is shown not to be the textbook one (`GeneralPowerRuleAtOne`),
  so `Smooth` excludes general powers.
- Rendering.ToString: it has no contract of its own. Its properties are the lemmas
  `EndsWithNewline`, `LineCount`, `IndentShift` and `ParenFreeRendering`.
- Scenarios.LogisticCrashes: the input is stated as three spelled parts joined by single
  spaces, `a + " " + b + " " + c`, rather than as one literal string.
- Scenarios.ProductOfLiteralAndVariable: assumes `show(13.0) == "13.0"`, the text
  `Float.toString` gives.
- Scenarios.PowerEvaluation and Scenarios.LogEvaluation: they assume the value of
  `Math.pow(4, 9)` and a range for `Math.log(22)`, since those functions are parameters.
- The tests at ExpressionParserTester.java:47, :92, :110, :119 and :128 expect results
  the code does not produce. The lemmas above state what it does produce. The tests at
  :56-57 and :68-69 expect a parse exception, where the code raises an index exception.
