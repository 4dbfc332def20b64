/// Deep copy and symbolic differentiation of expression trees, with the textbook
/// derivative as an independent reference.

module Calculus {
  import opened Expressions

  /** deepCopy of every node class: a tree with the same operators, values and shape. */
  function DeepCopy(e: Expr): (c: Expr)
    ensures c == e
  {
    match e
    case Lit(v) => Lit(v)
    case Var => Var
    case Paren(ch) => Paren(DeepCopy(ch))
    case Add(op, l, r) => Add(op, DeepCopy(l), DeepCopy(r))
    case Mul(op, l, r) => Mul(op, DeepCopy(l), DeepCopy(r))
    case Pow(l, r) => Pow(DeepCopy(l), DeepCopy(r))
    case Log(l) => Log(DeepCopy(l))
  }

  /**
   * differentiate of every node class. The exponential rules deep-copy the children they
   * reuse; the copies equal the originals (DeepCopy), so the children appear directly.
   */
  function Derivative(e: Expr): Expr
  {
    match e
    case Lit(_) => Lit(0.0)
    case Var => Lit(1.0)
    case Paren(c) => Paren(Derivative(c))
    case Add(op, f, g) => Add(op, Derivative(f), Derivative(g))
    case Mul(Times, f, g) =>
      // f' * g + f * g'
      Add(Plus, Mul(Times, Derivative(f), g), Mul(Times, f, Derivative(g)))
    case Mul(Divide, f, g) =>
      // f' / g - (f * g') / g^2
      Add(Minus, Mul(Divide, Derivative(f), g), Mul(Divide, Mul(Times, f, Derivative(g)), Pow(g, Lit(2.0))))
    case Log(f) =>
      // f' / f
      Mul(Divide, Derivative(f), f)
    case Pow(g, h) =>
      if g.Lit? then
        // (log C * C^h) * h'
        Mul(Times, Mul(Times, Log(g), Pow(g, h)), Derivative(h))
      else if h.Lit? then
        // (C * g^(C - 1)) * g'
        Mul(Times, Mul(Times, h, Pow(g, Add(Minus, h, Lit(1.0)))), Derivative(g))
      else
        // g^h * (g' * h + (h' * g) / h)
        Mul(Times, Pow(g, h), Add(Plus, Mul(Times, Derivative(g), h), Mul(Divide, Mul(Times, Derivative(h), g), h)))
  }

  /** Differentiating a tree without the variable gives a tree without the variable. */
  lemma {:induction false} DerivativeOfConstantIsConstant(e: Expr)
    requires !HasVar(e)
    ensures !HasVar(Derivative(e))
  {
    match e
    case Lit(_) =>
    case Var =>
    case Paren(c) => DerivativeOfConstantIsConstant(c);
    case Add(_, f, g) => DerivativeOfConstantIsConstant(f); DerivativeOfConstantIsConstant(g);
    case Mul(Times, f, g) => DerivativeOfConstantIsConstant(f); DerivativeOfConstantIsConstant(g);
    case Mul(Divide, f, g) =>
      DerivativeOfConstantIsConstant(f);
      DerivativeOfConstantIsConstant(g);
      assert !HasVar(Mul(Times, f, Derivative(g))) && !HasVar(Pow(g, Lit(2.0)));
    case Log(f) => DerivativeOfConstantIsConstant(f);
    case Pow(g, h) =>
      DerivativeOfConstantIsConstant(g);
      DerivativeOfConstantIsConstant(h);
      var d := Derivative(e);
      if g.Lit? {
        assert !HasVar(d.left);
      } else if h.Lit? {
        assert !HasVar(d.left.right.right);
        assert !HasVar(d.left);
      } else {
        assert !HasVar(d.right.left) && !HasVar(d.right.right.left);
        assert !HasVar(d.right);
      }
  }

  /** Differentiation introduces a parenthetical node only where the tree already had one. */
  lemma {:induction false} DerivativeParenFree(e: Expr)
    requires ParenFree(e)
    ensures ParenFree(Derivative(e))
  {
    match e
    case Lit(_) =>
    case Var =>
    case Paren(c) =>
    case Add(_, f, g) => DerivativeParenFree(f); DerivativeParenFree(g);
    case Mul(Times, f, g) => DerivativeParenFree(f); DerivativeParenFree(g);
    case Mul(Divide, f, g) =>
      DerivativeParenFree(f);
      DerivativeParenFree(g);
      assert ParenFree(Mul(Times, f, Derivative(g))) && ParenFree(Pow(g, Lit(2.0)));
    case Log(f) => DerivativeParenFree(f);
    case Pow(g, h) =>
      DerivativeParenFree(g);
      DerivativeParenFree(h);
      assert ParenFree(Pow(g, h)) && ParenFree(Log(g)) && ParenFree(Add(Minus, h, Lit(1.0)));
      assert ParenFree(Mul(Times, Derivative(g), h)) && ParenFree(Mul(Times, Derivative(h), g));
  }

  /**
   * Zero is absorbing where the rules of a constant tree need it: 0 + 0, 0 - 0, a product
   * with a zero factor and a quotient with a zero dividend are 0 (idealised; with IEEE
   * floats 0 * Infinity and 0 / 0 are NaN).
   */
  ghost predicate ZeroLaws(ar: Arith)
  {
    && ar.add(0.0, 0.0) == 0.0
    && ar.sub(0.0, 0.0) == 0.0
    && (forall y :: ar.mul(0.0, y) == 0.0 && ar.mul(y, 0.0) == 0.0)
    && (forall y :: ar.div(0.0, y) == 0.0)
  }

  /** The derivative of a tree without the variable evaluates to zero everywhere. */
  lemma {:induction false} DerivativeOfConstant(e: Expr, x: real, ar: Arith)
    requires !HasVar(e)
    requires ZeroLaws(ar)
    ensures Eval(Derivative(e), x, ar) == 0.0
  {
    match e
    case Lit(_) =>
    case Var =>
    case Paren(c) => DerivativeOfConstant(c, x, ar);
    case Add(_, f, g) => DerivativeOfConstant(f, x, ar); DerivativeOfConstant(g, x, ar);
    case Mul(Times, f, g) =>
      DerivativeOfConstant(f, x, ar);
      DerivativeOfConstant(g, x, ar);
      var d := Derivative(e);
      assert Eval(d.left, x, ar) == ar.mul(0.0, Eval(g, x, ar));
      assert Eval(d.right, x, ar) == ar.mul(Eval(f, x, ar), 0.0);
    case Mul(Divide, f, g) =>
      DerivativeOfConstant(f, x, ar);
      DerivativeOfConstant(g, x, ar);
      var d := Derivative(e);
      assert Eval(d.left, x, ar) == ar.div(0.0, Eval(g, x, ar));
      assert Eval(d.right.left, x, ar) == ar.mul(Eval(f, x, ar), 0.0);
      assert Eval(d.right, x, ar) == ar.div(0.0, Eval(d.right.right, x, ar));
    case Log(f) =>
      DerivativeOfConstant(f, x, ar);
      assert Eval(Derivative(e), x, ar) == ar.div(0.0, Eval(f, x, ar));
    case Pow(g, h) =>
      DerivativeOfConstant(g, x, ar);
      DerivativeOfConstant(h, x, ar);
      var d := Derivative(e);
      if g.Lit? {
        assert Eval(d, x, ar) == ar.mul(Eval(d.left, x, ar), 0.0);
      } else if h.Lit? {
        assert Eval(d, x, ar) == ar.mul(Eval(d.left, x, ar), 0.0);
      } else {
        assert Eval(d.right.left, x, ar) == ar.mul(0.0, Eval(h, x, ar));
        assert Eval(d.right.right.left, x, ar) == ar.mul(0.0, Eval(g, x, ar));
        assert Eval(d.right.right, x, ar) == ar.div(0.0, Eval(h, x, ar));
        assert Eval(d, x, ar) == ar.mul(Eval(d.left, x, ar), 0.0);
      }
  }

  /**
   * The textbook derivative of the tree's value at x, computed in the same arithmetic: the
   * sum, product, quotient ((f'g - fg') / g^2), logarithm, constant-base, constant-exponent
   * and general power (g^h (h' log g + h g' / g)) rules.
   */
  ghost function Slope(e: Expr, x: real, ar: Arith): real
  {
    match e
    case Lit(_) => 0.0
    case Var => 1.0
    case Paren(c) => Slope(c, x, ar)
    case Add(Plus, f, g) => ar.add(Slope(f, x, ar), Slope(g, x, ar))
    case Add(Minus, f, g) => ar.sub(Slope(f, x, ar), Slope(g, x, ar))
    case Mul(Times, f, g) =>
      ar.add(ar.mul(Slope(f, x, ar), Eval(g, x, ar)), ar.mul(Eval(f, x, ar), Slope(g, x, ar)))
    case Mul(Divide, f, g) =>
      var b := Eval(g, x, ar);
      ar.div(ar.sub(ar.mul(Slope(f, x, ar), b), ar.mul(Eval(f, x, ar), Slope(g, x, ar))), ar.mul(b, b))
    case Log(f) => ar.div(Slope(f, x, ar), Eval(f, x, ar))
    case Pow(g, h) =>
      var a, b := Eval(g, x, ar), Eval(h, x, ar);
      if g.Lit? then ar.mul(ar.mul(ar.ln(g.value), ar.pow(g.value, b)), Slope(h, x, ar))
      else if h.Lit? then ar.mul(ar.mul(h.value, ar.pow(a, ar.sub(h.value, 1.0))), Slope(g, x, ar))
      else ar.mul(ar.pow(a, b), ar.add(ar.mul(Slope(h, x, ar), ar.ln(a)), ar.div(ar.mul(b, Slope(g, x, ar)), a)))
  }

  /**
   * The trees on which the code's rules are the textbook ones at x: every divisor is
   * non-zero there, and no power has both a non-literal base and a non-literal exponent.
   */
  ghost predicate Smooth(e: Expr, x: real, ar: Arith)
  {
    match e
    case Lit(_) => true
    case Var => true
    case Paren(c) => Smooth(c, x, ar)
    case Add(_, f, g) => Smooth(f, x, ar) && Smooth(g, x, ar)
    case Mul(op, f, g) => Smooth(f, x, ar) && Smooth(g, x, ar) && (op == Divide ==> Eval(g, x, ar) != 0.0)
    case Log(f) => Smooth(f, x, ar)
    case Pow(g, h) => (g.Lit? || h.Lit?) && Smooth(g, x, ar) && Smooth(h, x, ar)
  }

  lemma ProductNonZero(b: real, c: real)
    requires b != 0.0 && c != 0.0
    ensures b * c != 0.0
  {
  }

  lemma DivUnique(u: real, n: real, q: real)
    requires q != 0.0
    requires u * q == n
    ensures u == n / q
  {
    assert (n / q) * q == n;
    assert (u - n / q) * q == 0.0;
  }

  lemma QuotientRuleGeneral(da: real, b: real, c: real, a: real, db: real)
    requires b != 0.0 && c != 0.0
    ensures da / b - (a * db) / (b * c) == (da * c - a * db) / (b * c)
  {
    ProductNonZero(b, c);
    var u, w := da / b, (a * db) / (b * c);
    assert u * b == da;
    assert w * (b * c) == a * db;
    assert u * (b * c) == (u * b) * c;
    assert (u - w) * (b * c) == u * (b * c) - w * (b * c);
    DivUnique(u - w, da * c - a * db, b * c);
  }

  lemma RealDivisionByProduct(ar: Arith, p: real, b: real, c: real)
    requires RealArith(ar)
    requires b != 0.0 && c != 0.0
    ensures b * c != 0.0
    ensures ar.div(p, b * c) == p / (b * c)
  {
    ProductNonZero(b, c);
  }

  /** In exact arithmetic the code's form of the quotient rule is the textbook one. */
  lemma QuotientRule(ar: Arith, da: real, b: real, a: real, db: real)
    requires RealArith(ar)
    requires b != 0.0
    ensures ar.sub(ar.div(da, b), ar.div(ar.mul(a, db), ar.pow(b, 2.0)))
         == ar.div(ar.sub(ar.mul(da, b), ar.mul(a, db)), ar.mul(b, b))
  {
    ProductNonZero(b, b);
    QuotientRuleGeneral(da, b, b, a, db);
    assert ar.pow(b, 2.0) == b * b;
    assert ar.mul(a, db) == a * db;
    assert ar.div(da, b) == da / b;
    RealDivisionByProduct(ar, a * db, b, b);
    assert ar.sub(da / b, (a * db) / (b * b)) == da / b - (a * db) / (b * b);
    assert ar.mul(da, b) == da * b;
    assert ar.sub(da * b, a * db) == da * b - a * db;
    assert ar.mul(b, b) == b * b;
    RealDivisionByProduct(ar, da * b - a * db, b, b);
  }

  /** The quotient rule holds in the arithmetic, for every non-zero divisor. */
  ghost predicate QuotientRuleHolds(ar: Arith)
  {
    forall da, b, a, db :: b != 0.0 ==>
      ar.sub(ar.div(da, b), ar.div(ar.mul(a, db), ar.pow(b, 2.0)))
        == ar.div(ar.sub(ar.mul(da, b), ar.mul(a, db)), ar.mul(b, b))
  }

  lemma RealArithQuotient(ar: Arith)
    requires RealArith(ar)
    ensures QuotientRuleHolds(ar)
  {
    forall da, b, a, db | b != 0.0
      ensures ar.sub(ar.div(da, b), ar.div(ar.mul(a, db), ar.pow(b, 2.0)))
           == ar.div(ar.sub(ar.mul(da, b), ar.mul(a, db)), ar.mul(b, b))
    {
      QuotientRule(ar, da, b, a, db);
    }
  }

  lemma {:induction false} DerivativeIsSlopeBy(e: Expr, x: real, ar: Arith)
    requires QuotientRuleHolds(ar)
    requires Smooth(e, x, ar)
    ensures Eval(Derivative(e), x, ar) == Slope(e, x, ar)
  {
    match e
    case Lit(_) =>
    case Var =>
    case Paren(c) => DerivativeIsSlopeBy(c, x, ar);
    case Add(_, f, g) => DerivativeIsSlopeBy(f, x, ar); DerivativeIsSlopeBy(g, x, ar);
    case Mul(Times, f, g) => DerivativeIsSlopeBy(f, x, ar); DerivativeIsSlopeBy(g, x, ar);
    case Mul(Divide, f, g) =>
      DerivativeIsSlopeBy(f, x, ar);
      DerivativeIsSlopeBy(g, x, ar);
      QuotientIsSlope(f, g, x, ar);
    case Log(f) => DerivativeIsSlopeBy(f, x, ar);
    case Pow(g, h) =>
      if g.Lit? {
        DerivativeIsSlopeBy(h, x, ar);
      } else {
        DerivativeIsSlopeBy(g, x, ar);
      }
      PowerIsSlope(g, h, x, ar);
  }

  /** The quotient case, given the operands' derivatives. */
  lemma QuotientIsSlope(f: Expr, g: Expr, x: real, ar: Arith)
    requires QuotientRuleHolds(ar)
    requires Smooth(Mul(Divide, f, g), x, ar)
    requires Eval(Derivative(f), x, ar) == Slope(f, x, ar)
    requires Eval(Derivative(g), x, ar) == Slope(g, x, ar)
    ensures Eval(Derivative(Mul(Divide, f, g)), x, ar) == Slope(Mul(Divide, f, g), x, ar)
  {
    var a, b := Eval(f, x, ar), Eval(g, x, ar);
    var da, db := Slope(f, x, ar), Slope(g, x, ar);
    var d := Derivative(Mul(Divide, f, g));
    assert Eval(d.left, x, ar) == ar.div(da, b);
    assert Eval(d.right.left, x, ar) == ar.mul(a, db);
    assert Eval(d.right.right, x, ar) == ar.pow(b, 2.0);
    assert Eval(d.right, x, ar) == ar.div(ar.mul(a, db), ar.pow(b, 2.0));
  }

  /** The power case, given the derivative of the operand that is not a literal. */
  lemma PowerIsSlope(g: Expr, h: Expr, x: real, ar: Arith)
    requires Smooth(Pow(g, h), x, ar)
    requires g.Lit? ==> Eval(Derivative(h), x, ar) == Slope(h, x, ar)
    requires !g.Lit? ==> Eval(Derivative(g), x, ar) == Slope(g, x, ar)
    ensures Eval(Derivative(Pow(g, h)), x, ar) == Slope(Pow(g, h), x, ar)
  {
    var d := Derivative(Pow(g, h));
    if g.Lit? {
      assert Eval(d.left.left, x, ar) == ar.ln(g.value);
      assert Eval(d.left.right, x, ar) == ar.pow(g.value, Eval(h, x, ar));
    } else {
      assert h.Lit?;
      assert Eval(d.left.left, x, ar) == h.value;
      assert Eval(d.left.right.right, x, ar) == ar.sub(h.value, 1.0);
      assert Eval(d.left.right, x, ar) == ar.pow(Eval(g, x, ar), ar.sub(h.value, 1.0));
    }
  }

  /**
   * Wherever the code's rules are the textbook ones (no general power, no zero divisor),
   * the derivative tree evaluates, in exact arithmetic, to the textbook derivative.
   */
  lemma DerivativeIsSlope(e: Expr, x: real, ar: Arith)
    requires RealArith(ar)
    requires Smooth(e, x, ar)
    ensures Eval(Derivative(e), x, ar) == Slope(e, x, ar)
  {
    RealArithQuotient(ar);
    DerivativeIsSlopeBy(e, x, ar);
  }

  /**
   * The general power rule as built is not the textbook one: for x^x at x = 1, where
   * 1^1 = 1 and log 1 = 0, the textbook derivative is 1 and the derivative tree gives 2.
   */
  lemma GeneralPowerRuleAtOne(ar: Arith)
    requires RealArith(ar)
    requires ar.pow(1.0, 1.0) == 1.0 && ar.ln(1.0) == 0.0
    ensures Eval(Derivative(Pow(Var, Var)), 1.0, ar) == 2.0
    ensures Slope(Pow(Var, Var), 1.0, ar) == 1.0
  {
    var d := Derivative(Pow(Var, Var));
    assert d == Mul(Times, Pow(Var, Var), Add(Plus, Mul(Times, Lit(1.0), Var), Mul(Divide, Mul(Times, Lit(1.0), Var), Var)));
    assert Eval(Mul(Times, Lit(1.0), Var), 1.0, ar) == 1.0;
    assert ar.div(1.0, 1.0) == 1.0 / 1.0 == 1.0;
    assert Eval(d.right.right, 1.0, ar) == ar.div(1.0, 1.0);
    assert Eval(d.right, 1.0, ar) == 2.0;
    assert Eval(d.left, 1.0, ar) == 1.0;
  }
}
