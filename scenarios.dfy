/// The expressions of the repository's parser tests, parsed, rendered and evaluated as the
/// code does. Where a test expects something else, the lemma states what the code yields.
///
/// The steps are stated about a string that spells a text character by character rather
/// than about the text itself, so that no proof evaluates the grammar on a whole literal.

module Scenarios {
  import opened Expressions
  import opened FloatLiteral
  import opened Grammar
  import opened GrammarFacts
  import opened Rendering

  /** w has the characters of t. */
  predicate Spells(w: string, t: string)
  {
    |w| == |t| && forall i | 0 <= i < |t| :: w[i] == t[i]
  }

  /** A single digit at the additive level. */
  lemma Digit(s: string)
    requires |s| == 1 && IsDigit(s[0])
    ensures Additive(s) == Multiplicative(s) == Exponential(s) == Ok(Lit(DigitValue(s[0]) as real))
  {
    assert IsDigits(s);
    DigitsLevels(s);
    assert s[..|s| - 1] == [];
    assert DigitsValue(s) == DigitValue(s[0]);
  }

  /** Two digits at the additive level. */
  lemma TwoDigits(s: string)
    requires |s| == 2 && IsDigit(s[0]) && IsDigit(s[1])
    ensures Additive(s) == Ok(Lit((10 * DigitValue(s[0]) + DigitValue(s[1])) as real))
  {
    DigitsLevels(s);
    var h := s[..1];
    assert h[..0] == [] && s[..|s| - 1] == h;
    assert DigitsValue(h) == DigitValue(s[0]);
  }

  /** The variable, spelled. */
  lemma Variable1(s: string)
    requires Spells(s, "x")
    ensures Additive(s) == Multiplicative(s) == Exponential(s) == Ok(Var)
  {
    assert s == "x";
    VariableLevels();
  }

  /** A string without operators that no level parses. */
  lemma Unparsable(s: string, k: nat)
    requires forall j | 0 <= j < |s| :: !IsOperatorChar(s[j])
    requires k < |s| && !LiteralChar(s[k])
    requires s != "x" && !(s[0] == '(' && s[|s| - 1] == ')')
    ensures Additive(s) == Multiplicative(s) == Exponential(s) == NoMatch
  {
    NoOperatorLevels(s);
    NotParenthetical(s, k);
  }

  /** A string without '^' and 'l' that the exponential level does not parse. */
  lemma NotExponential(s: string, k: nat)
    requires forall j | 0 <= j < |s| :: s[j] != '^' && s[j] != 'l'
    requires k < |s| && !LiteralChar(s[k])
    requires s != "x" && !(s[0] == '(' && s[|s| - 1] == ')')
    ensures Exponential(s) == NoMatch
  {
    ExponentialIsParenthetical(s);
    NotParenthetical(s, k);
  }

  /** Parse without spaces: the additive level's result, crash and parse error included. */
  lemma ParseSpaceless(s: string)
    requires ' ' !in s
    ensures Parse(s) == match Additive(s)
                        case Crash => IndexOutOfBounds
                        case Ok(e) => Success(e)
                        case NoMatch => ParseError("Cannot parse expression: " + s)
  {
    ParseIsAdditive(s);
  }

  // "x+x" (ExpressionParserTester.java:26-28)

  lemma SumOfVariablesTree(s: string)
    requires Spells(s, "x+x")
    ensures Additive(s) == Ok(Add(Plus, Var, Var))
  {
    Variable1(s[..1]);
    Variable1(s[2..]);
    AdditiveLeftmostSplit(s, 1);
  }

  lemma RenderSumOfVariables(show: real -> string)
    ensures ToString(Add(Plus, Var, Var), 0, show) == "+\n\tx\n\tx\n"
  {
    assert Tabs(1) == "\t";
  }

  /** "x+x" is an addition of two variables, rendered over three lines. */
  lemma SumOfVariables(show: real -> string)
    ensures Parse("x+x") == Success(Add(Plus, Var, Var))
    ensures ToString(Parse("x+x").tree, 0, show) == "+\n\tx\n\tx\n"
  {
    SumOfVariablesTree("x+x");
    ParseSpaceless("x+x");
    RenderSumOfVariables(show);
  }

  // "13*x" (ExpressionParserTester.java:36-38)

  lemma ProductOfLiteralAndVariableTree(s: string)
    requires Spells(s, "13*x")
    ensures Additive(s) == Ok(Mul(Times, Lit(13.0), Var))
  {
    AdditiveFallsThrough(s);
    TwoDigits(s[..2]);
    Variable1(s[3..]);
    MultiplicativeLeftmostSplit(s, 2);
  }

  lemma RenderProductOfLiteralAndVariable(show: real -> string)
    requires show(13.0) == "13.0"
    ensures ToString(Mul(Times, Lit(13.0), Var), 0, show) == "*\n\t13.0\n\tx\n"
  {
    assert Tabs(1) == "\t";
  }

  /**
   * "13*x" is the product of the literal 13 and the variable, rendered over three lines
   * when Float.toString renders 13 as "13.0".
   */
  lemma ProductOfLiteralAndVariable(show: real -> string)
    requires show(13.0) == "13.0"
    ensures Parse("13*x") == Success(Mul(Times, Lit(13.0), Var))
    ensures ToString(Parse("13*x").tree, 0, show) == "*\n\t13.0\n\tx\n"
  {
    ProductOfLiteralAndVariableTree("13*x");
    ParseSpaceless("13*x");
    RenderProductOfLiteralAndVariable(show);
  }

  // "x" (ExpressionParserTester.java:100-101)

  /** "x" evaluated at 2 is 2. */
  lemma VariableAtTwo(ar: Arith)
    ensures Parse("x") == Success(Var)
    ensures Eval(Parse("x").tree, 2.0, ar) == 2.0
  {
    Variable1("x");
    ParseSpaceless("x");
  }

  // "4*(x+5*x)" (ExpressionParserTester.java:91-92)

  lemma SumXFive(w: string)
    requires Spells(w, "x+5")
    ensures Additive(w) == Ok(Add(Plus, Var, Lit(5.0)))
  {
    Variable1(w[..1]);
    Digit(w[2..]);
    AdditiveLeftmostSplit(w, 1);
  }

  /** "x+5*x" is no sum: "5*x" is no exponential expression. */
  lemma InnerNotSum(v: string)
    requires Spells(v, "x+5*x")
    ensures Additive(v) == Multiplicative(v)
  {
    Variable1(v[..1]);
    NotExponential(v[2..], 1);
    AdditiveSkips(v, 1);
    AdditiveFallsThroughAt(v, 1);
  }

  lemma InnerProduct(v: string)
    requires Spells(v, "x+5*x")
    ensures Multiplicative(v) == Ok(Mul(Times, Add(Plus, Var, Lit(5.0)), Var))
  {
    SumXFive(v[..3]);
    Variable1(v[4..]);
    MultiplicativeLeftmostSplit(v, 3);
  }

  /** "(x+5" is no operand: the '+' candidate has the unparsable "(x" on its left. */
  lemma OpenSum(a: string)
    requires Spells(a, "(x+5")
    ensures Additive(a) == NoMatch
  {
    Unparsable(a[..2], 0);
    Digit(a[3..]);
    AdditiveSkips(a, 2);
    AdditiveFallsThroughAt(a, 2);
    MultiplicativeFallsThrough(a);
    NotExponential(a, 0);
  }

  lemma ParenthesisedNotSum(u: string)
    requires Spells(u, "(x+5*x)")
    ensures Additive(u) == Multiplicative(u)
  {
    Unparsable(u[..2], 0);
    NotExponential(u[3..], 1);
    AdditiveSkips(u, 2);
    AdditiveFallsThroughAt(u, 2);
  }

  lemma ParenthesisedNotProduct(u: string)
    requires Spells(u, "(x+5*x)")
    ensures Multiplicative(u) == Exponential(u)
  {
    OpenSum(u[..4]);
    Unparsable(u[5..], 1);
    MultiplicativeSkips(u, 4);
    MultiplicativeFallsThroughAt(u, 4);
  }

  lemma ParenthesisedInner(u: string)
    requires Spells(u, "(x+5*x)")
    ensures Additive(u) == Ok(Mul(Times, Add(Plus, Var, Lit(5.0)), Var))
  {
    ParenthesisedNotSum(u);
    ParenthesisedNotProduct(u);
    ExponentialIsParenthetical(u);
    InnerNotSum(u[1..|u| - 1]);
    InnerProduct(u[1..|u| - 1]);
  }

  /** "4*(x" is no operand: "(x" is unparsable. */
  lemma OpenProduct(m: string)
    requires Spells(m, "4*(x")
    ensures Multiplicative(m) == NoMatch
  {
    Unparsable(m[2..], 0);
    Digit(m[..1]);
    MultiplicativeSkips(m, 1);
    MultiplicativeFallsThroughAt(m, 1);
    NotExponential(m, 1);
  }

  lemma FirstEvaluationNotSum(s: string)
    requires Spells(s, "4*(x+5*x)")
    ensures Additive(s) == Multiplicative(s)
  {
    OpenProduct(s[..4]);
    NotExponential(s[5..], 1);
    AdditiveSkips(s, 4);
    AdditiveFallsThroughAt(s, 4);
  }

  lemma FirstEvaluationTree(s: string)
    requires Spells(s, "4*(x+5*x)")
    ensures Additive(s) == Ok(Mul(Times, Lit(4.0), Mul(Times, Add(Plus, Var, Lit(5.0)), Var)))
  {
    FirstEvaluationNotSum(s);
    Digit(s[..1]);
    ParenthesisedInner(s[2..]);
    MultiplicativeLeftmostSplit(s, 1);
  }

  lemma FirstEvaluationValue(ar: Arith)
    requires RealArith(ar)
    ensures Eval(Mul(Times, Lit(4.0), Mul(Times, Add(Plus, Var, Lit(5.0)), Var)), 3.0, ar) == 96.0
  {
    assert Eval(Add(Plus, Var, Lit(5.0)), 3.0, ar) == 8.0;
    assert Eval(Mul(Times, Add(Plus, Var, Lit(5.0)), Var), 3.0, ar) == 24.0;
  }

  /**
   * "4*(x+5*x)" at 3 is 96, not the 72 the test expects: the code reads the parenthesised
   * part as (x+5)*x.
   */
  lemma FirstEvaluation(ar: Arith)
    requires RealArith(ar)
    ensures Parse("4*(x+5*x)") == Success(Mul(Times, Lit(4.0), Mul(Times, Add(Plus, Var, Lit(5.0)), Var)))
    ensures Eval(Parse("4*(x+5*x)").tree, 3.0, ar) == 96.0
  {
    FirstEvaluationTree("4*(x+5*x)");
    ParseSpaceless("4*(x+5*x)");
    FirstEvaluationValue(ar);
  }

  // "9/3*3" (ExpressionParserTester.java:109-110)

  lemma QuotientTree(s: string)
    requires Spells(s, "9/3*3")
    ensures Additive(s) == Ok(Mul(Divide, Lit(9.0), Mul(Times, Lit(3.0), Lit(3.0))))
  {
    AdditiveFallsThrough(s);
    Digit(s[..1]);
    var r := s[2..];
    AdditiveFallsThrough(r);
    Digit(r[..1]);
    Digit(r[2..]);
    MultiplicativeLeftmostSplit(r, 1);
    MultiplicativeLeftmostSplit(s, 1);
  }

  /** "9/3*3" is 9/(3*3), which is 1, not the 9 the test expects. */
  lemma QuotientEvaluation(ar: Arith)
    requires RealArith(ar)
    ensures Parse("9/3*3") == Success(Mul(Divide, Lit(9.0), Mul(Times, Lit(3.0), Lit(3.0))))
    ensures Eval(Parse("9/3*3").tree, 333.0, ar) == 1.0
  {
    QuotientTree("9/3*3");
    ParseSpaceless("9/3*3");
    assert Eval(Mul(Times, Lit(3.0), Lit(3.0)), 333.0, ar) == 9.0;
  }

  // "4-3*x" (ExpressionParserTester.java:118-119)

  lemma DifferenceTree(s: string)
    requires Spells(s, "4-3*x")
    ensures Additive(s) == Ok(Mul(Times, Add(Minus, Lit(4.0), Lit(3.0)), Var))
  {
    Digit(s[..1]);
    NotExponential(s[2..], 1);
    AdditiveSkips(s, 1);
    AdditiveFallsThroughAt(s, 1);
    var l := s[..3];
    Digit(l[..1]);
    Digit(l[2..]);
    AdditiveLeftmostSplit(l, 1);
    Variable1(s[4..]);
    MultiplicativeLeftmostSplit(s, 3);
  }

  /** "4-3*x" is (4-3)*x, which at 2.5 is 2.5, not the -3.5 the test expects. */
  lemma DifferenceEvaluation(ar: Arith)
    requires RealArith(ar)
    ensures Parse("4-3*x") == Success(Mul(Times, Add(Minus, Lit(4.0), Lit(3.0)), Var))
    ensures Eval(Parse("4-3*x").tree, 2.5, ar) == 2.5
  {
    DifferenceTree("4-3*x");
    ParseSpaceless("4-3*x");
    assert Eval(Add(Minus, Lit(4.0), Lit(3.0)), 2.5, ar) == 1.0;
  }

  // "4^3^2" (ExpressionParserTester.java:136-137)

  lemma PowerTree(s: string)
    requires Spells(s, "4^3^2")
    ensures Additive(s) == Ok(Pow(Lit(4.0), Pow(Lit(3.0), Lit(2.0))))
  {
    AdditiveFallsThrough(s);
    MultiplicativeFallsThrough(s);
    Digit(s[..1]);
    var r := s[2..];
    AdditiveFallsThrough(r);
    MultiplicativeFallsThrough(r);
    Digit(r[..1]);
    Digit(r[2..]);
    ExponentialLeftmostSplit(r, 1);
    ExponentialLeftmostSplit(s, 1);
  }

  /** "4^3^2" is 4^(3^2): with Math.pow exact on these operands, 262144. */
  lemma PowerEvaluation(ar: Arith)
    requires RealArith(ar) && ar.pow(4.0, 9.0) == 262144.0
    ensures Parse("4^3^2") == Success(Pow(Lit(4.0), Pow(Lit(3.0), Lit(2.0))))
    ensures Eval(Parse("4^3^2").tree, 0.0, ar) == 262144.0
  {
    PowerTree("4^3^2");
    ParseSpaceless("4^3^2");
    PowerValue(ar);
  }

  lemma PowerValue(ar: Arith)
    requires RealArith(ar) && ar.pow(4.0, 9.0) == 262144.0
    ensures Eval(Pow(Lit(4.0), Pow(Lit(3.0), Lit(2.0))), 0.0, ar) == 262144.0
  {
    assert Eval(Pow(Lit(3.0), Lit(2.0)), 0.0, ar) == 9.0;
  }

  // "log(x*2)" (ExpressionParserTester.java:154-155)

  /** "log(x" is no operand: the logarithm's argument "(x" is unparsable. */
  lemma OpenLog(w: string)
    requires Spells(w, "log(x")
    ensures Additive(w) == NoMatch
  {
    AdditiveFallsThrough(w);
    MultiplicativeFallsThrough(w);
    NotParenthetical(w, 0);
    NoCaretExponential(w);
    NotParenthetical(w[3..], 0);
    assert At(LogLevel, w, 0) == NoMatch;
    ScanNone(LogLevel, w, 0);
  }

  lemma ProductArgument(a: string)
    requires Spells(a, "(x*2)")
    ensures Parenthetical(a) == Ok(Mul(Times, Var, Lit(2.0)))
  {
    var m := a[1..|a| - 1];
    AdditiveFallsThrough(m);
    Variable1(m[..1]);
    Digit(m[2..]);
    MultiplicativeLeftmostSplit(m, 1);
  }

  lemma LogTree(s: string)
    requires Spells(s, "log(x*2)")
    ensures Additive(s) == Ok(Log(Mul(Times, Var, Lit(2.0))))
  {
    AdditiveFallsThrough(s);
    OpenLog(s[..5]);
    Unparsable(s[6..], 1);
    MultiplicativeSkips(s, 5);
    MultiplicativeFallsThroughAt(s, 5);
    ProductArgument(s[3..]);
    FirstLogArgument(s, 0);
  }

  /**
   * "log(x*2)" is the natural logarithm of 2x; at 11 it is ln 22, whose integer part is 3
   * when Math.log is accurate to within that unit.
   */
  lemma LogEvaluation(ar: Arith)
    requires RealArith(ar) && 3.0 <= ar.ln(22.0) < 4.0
    ensures Parse("log(x*2)") == Success(Log(Mul(Times, Var, Lit(2.0))))
    ensures Eval(Parse("log(x*2)").tree, 11.0, ar).Floor == 3
  {
    LogTree("log(x*2)");
    ParseSpaceless("log(x*2)");
    LogValue(ar);
  }

  lemma LogValue(ar: Arith)
    requires RealArith(ar) && 3.0 <= ar.ln(22.0) < 4.0
    ensures Eval(Log(Mul(Times, Var, Lit(2.0))), 11.0, ar).Floor == 3
  {
    assert Eval(Mul(Times, Var, Lit(2.0)), 11.0, ar) == 22.0;
    var v := Eval(Log(Mul(Times, Var, Lit(2.0))), 11.0, ar);
    assert v == ar.ln(22.0);
    assert 3.0 <= v < 4.0;
  }

  // "()()" (ExpressionParserTester.java:80-81)

  lemma AdjacentParenthesesTree(s: string)
    requires Spells(s, "()()")
    ensures Additive(s) == NoMatch
  {
    NoOperatorLevels(s);
    Unparsable(s[1..|s| - 1], 0);
  }

  /** "()()" is a parse error: its interior ")(" is unparsable. */
  lemma AdjacentParentheses()
    ensures Parse("()()") == ParseError("Cannot parse expression: ()()")
  {
    AdjacentParenthesesTree("()()");
    ParseSpaceless("()()");
  }

  // "1+2+" and "((()))" (ExpressionParserTester.java:56-57, 68-69)

  /** "1+2+" is an index error rather than a parse error: its suffix after the last '+' is empty. */
  lemma TrailingPlus()
    ensures Parse("1+2+") == IndexOutOfBounds
  {
    TrailingSignCrashes("1+2+");
    ParseSpaceless("1+2+");
  }

  /** "((()))" is an index error rather than a parse error: the innermost interior is empty. */
  lemma NestedEmptyParentheses()
    ensures Parse("((()))") == IndexOutOfBounds
  {
    NestedEmptyParenthesesCrash(3);
    assert Nest(3) == "((()))";
    ParseSpaceless("((()))");
  }

  // "10*x^3 + 2*(15+x)" (ExpressionParserTester.java:46-47)

  /**
   * The rendering this test expects has a "()" line, which no parsed tree renders, since
   * parsing never yields a parenthetical node: whatever the string, its parse does not
   * render as expected.
   */
  lemma ParenthesisedRenderingUnreachable(s: string, show: real -> string)
    requires forall v :: '(' !in show(v)
    ensures Parse(s).Success? ==>
      ToString(Parse(s).tree, 0, show)
      != "+\n\t*\n\t\t10.0\n\t\t^\n\t\t\tx\n\t\t\t3.0\n\t*\n\t\t2.0\n\t\t()\n\t\t\t+\n\t\t\t\t15.0\n\t\t\t\tx\n"
  {
    ParsedRendering(s, show);
    var expected := "+\n\t*\n\t\t10.0\n\t\t^\n\t\t\tx\n\t\t\t3.0\n\t*\n\t\t2.0\n\t\t()\n\t\t\t+\n\t\t\t\t15.0\n\t\t\t\tx\n";
    assert expected[39] == '(';
  }

  /** A parsed tree renders without '(' when no literal's text holds one. */
  lemma ParsedRendering(s: string, show: real -> string)
    requires forall v :: '(' !in show(v)
    ensures Parse(s).Success? ==> '(' !in ToString(Parse(s).tree, 0, show)
  {
    if Parse(s).Success? {
      ParenFreeRendering(Parse(s).tree, 0, show);
    }
  }

  // "1./(1. + 5^(-1*x))" (ExpressionParserTester.java:127-128)

  /** "(-1" is no operand. */
  lemma OpenNegation(w: string)
    requires Spells(w, "(-1")
    ensures Additive(w) == NoMatch
  {
    Unparsable(w[..1], 0);
    Digit(w[2..]);
    AdditiveSkips(w, 1);
    AdditiveFallsThroughAt(w, 1);
    MultiplicativeFallsThrough(w);
    NotExponential(w, 0);
  }

  /**
   * "(-1*x))" is an index error: neither its '-' nor its '*' candidate parses, and its
   * parenthesised interior "-1*x)" starts with a sign.
   */
  lemma ParenthesisedNegationCrashes(p: string)
    requires Spells(p, "(-1*x))")
    ensures Additive(p) == Crash
  {
    ParenthesisedNegationNotSum(p);
    ParenthesisedNegationNotProduct(p);
    LeadingSignCrashes(p[1..|p| - 1]);
    NoCaretExponential(p);
  }

  lemma ParenthesisedNegationNotSum(p: string)
    requires Spells(p, "(-1*x))")
    ensures Additive(p) == Multiplicative(p)
  {
    Unparsable(p[..1], 0);
    NotExponential(p[2..], 1);
    AdditiveSkips(p, 1);
    AdditiveFallsThroughAt(p, 1);
  }

  lemma ParenthesisedNegationNotProduct(p: string)
    requires Spells(p, "(-1*x))")
    ensures Multiplicative(p) == Exponential(p)
  {
    OpenNegation(p[..3]);
    Unparsable(p[4..], 1);
    MultiplicativeSkips(p, 3);
    MultiplicativeFallsThroughAt(p, 3);
  }

  lemma PowerOfNegationCrashes(e: string)
    requires Spells(e, "5^(-1*x))")
    ensures Exponential(e) == Crash
  {
    ParenthesisedNegationCrashes(e[2..]);
    assert At(PowLevel, e, 1) == Crash;
    ScanLeftmost(PowLevel, e, 0, 1);
  }

  lemma LogisticTree(a: string, b: string, c: string)
    requires Spells(a, "1./(1.") && Spells(b, "+") && Spells(c, "5^(-1*x))")
    ensures Additive(a + b + c) == Crash
  {
    var t := a + b + c;
    assert t[7..] == c && t[6] == '+';
    PowerOfNegationCrashes(c);
    assert At(AddLevel, t, 6) == Crash;
    assert forall j | 0 <= j < 6 :: t[j] == a[j];
    ScanLeftmost(AddLevel, t, 0, 6);
  }

  /** Two single spaces removed from between three space-free parts. */
  lemma StripTwoSpaces(a: string, b: string, c: string)
    requires ' ' !in a && ' ' !in b && ' ' !in c
    ensures StripSpaces(a + " " + b + " " + c) == a + b + c
  {
    var sp := " ";
    assert StripSpaces(sp) == [] by {
      assert sp[1..] == [];
    }
    var x := a + sp;
    StripSpacesAppend(a, sp);
    assert StripSpaces(x) == a;
    var y := x + b;
    StripSpacesAppend(x, b);
    var z := y + sp;
    StripSpacesAppend(y, sp);
    assert StripSpaces(z) == a + b;
    StripSpacesAppend(z, c);
  }

  /**
   * "1./(1. + 5^(-1*x))", written here as its three parts between the two spaces, is an
   * index error, not the value 0.83 at 1 the test expects: the exponent's interior
   * "-1*x)" starts with a sign.
   */
  lemma LogisticCrashes(a: string, b: string, c: string)
    requires Spells(a, "1./(1.") && Spells(b, "+") && Spells(c, "5^(-1*x))")
    ensures Parse(a + " " + b + " " + c) == IndexOutOfBounds
  {
    StripTwoSpaces(a, b, c);
    LogisticTree(a, b, c);
    ParseIsAdditive(a + " " + b + " " + c);
  }

  // The logarithm branch's unchecked characters

  lemma LogAfterDigitTree(s: string)
    requires Spells(s, "2log(x)")
    ensures Additive(s) == Ok(Log(Var))
  {
    AdditiveFallsThrough(s);
    MultiplicativeFallsThrough(s);
    var a, v := s[4..], s[5..6];
    assert a[1..|a| - 1] == v;
    Variable1(v);
    FirstLogArgument(s, 1);
  }

  /** "2log(x)" is the logarithm of x: the '2' before the 'l' is ignored. */
  lemma LogAfterDigit()
    ensures Parse("2log(x)") == Success(Log(Var))
  {
    LogAfterDigitTree("2log(x)");
    ParseSpaceless("2log(x)");
  }
}
