/// The expression tree: one constructor per node class, the six-operator
/// evaluation table shared by the operator nodes, and evaluation.

module Expressions {

  datatype Option<+T> = None | Some(value: T)

  /** Operator of an additive node: '+' or '-'. */
  datatype AddOp = Plus | Minus

  /** Operator of a multiplicative node: '*' or '/'. */
  datatype MulOp = Times | Divide

  /** The operators of the shared evaluation table; `Ln` is the unary natural logarithm 'l'. */
  datatype Op = OpPlus | OpMinus | OpTimes | OpDivide | OpPower | OpLn

  /**
   * An expression tree. Every node is immutable: its children and operator are fixed
   * when it is built, so sharing a subtree can never be observed.
   */
  datatype Expr =
    | Lit(value: real)                          // LiteralExpression
    | Var                                       // VariableExpression, the variable x
    | Paren(child: Expr)                        // ParentheticalExpression
    | Add(aop: AddOp, left: Expr, right: Expr)  // AdditiveExpression
    | Mul(mop: MulOp, left: Expr, right: Expr)  // MultiplicativeExpression
    | Pow(left: Expr, right: Expr)              // ExponentialExpression with '^'
    | Log(left: Expr)                           // ExponentialExpression with 'l', no right child

  function AddChar(op: AddOp): char
  {
    match op
    case Plus => '+'
    case Minus => '-'
  }

  function MulChar(op: MulOp): char
  {
    match op
    case Times => '*'
    case Divide => '/'
  }

  function AddOpToOp(op: AddOp): Op
  {
    match op
    case Plus => OpPlus
    case Minus => OpMinus
  }

  function MulOpToOp(op: MulOp): Op
  {
    match op
    case Times => OpTimes
    case Divide => OpDivide
  }

  /** Number of nodes in the tree. */
  function Size(e: Expr): nat
  {
    match e
    case Lit(_) => 1
    case Var => 1
    case Paren(c) => 1 + Size(c)
    case Add(_, l, r) => 1 + Size(l) + Size(r)
    case Mul(_, l, r) => 1 + Size(l) + Size(r)
    case Pow(l, r) => 1 + Size(l) + Size(r)
    case Log(l) => 1 + Size(l)
  }

  function OptionSize(r: Option<Expr>): nat
  {
    match r
    case None => 0
    case Some(e) => Size(e)
  }

  /** The tree mentions the variable x. */
  predicate HasVar(e: Expr)
  {
    match e
    case Lit(_) => false
    case Var => true
    case Paren(c) => HasVar(c)
    case Add(_, l, r) => HasVar(l) || HasVar(r)
    case Mul(_, l, r) => HasVar(l) || HasVar(r)
    case Pow(l, r) => HasVar(l) || HasVar(r)
    case Log(l) => HasVar(l)
  }

  /** The tree holds no parenthetical node. */
  predicate ParenFree(e: Expr)
  {
    match e
    case Lit(_) => true
    case Var => true
    case Paren(_) => false
    case Add(_, l, r) => ParenFree(l) && ParenFree(r)
    case Mul(_, l, r) => ParenFree(l) && ParenFree(r)
    case Pow(l, r) => ParenFree(l) && ParenFree(r)
    case Log(l) => ParenFree(l)
  }

  /**
   * The floating-point operations of the table, left uninterpreted: addition, subtraction,
   * multiplication and division round (and division yields Infinity or NaN on a zero
   * divisor instead of failing), and Math.pow and Math.log are library calls.
   */
  datatype Arith = Arith(
    add: (real, real) -> real,
    sub: (real, real) -> real,
    mul: (real, real) -> real,
    div: (real, real) -> real,
    pow: (real, real) -> real,
    ln: real -> real)

  /**
   * Arithmetic without rounding: add, sub and mul are exact on the reals, div is exact for a
   * non-zero divisor, and squaring is pow(q, 2) == q*q. Other powers and ln stay free.
   */
  ghost predicate RealArith(ar: Arith)
  {
    && (forall p, q :: ar.add(p, q) == p + q)
    && (forall p, q :: ar.sub(p, q) == p - q)
    && (forall p, q :: ar.mul(p, q) == p * q)
    && (forall p, q :: q != 0.0 ==> ar.div(p, q) == p / q)
    && (forall q :: ar.pow(q, 2.0) == q * q)
  }

  /**
   * The evaluation table shared by the operator nodes. The right operand is consulted for
   * the five binary operators only; for the logarithm it may be absent.
   */
  function Operation(op: Op, l: real, r: Option<real>, ar: Arith): real
    requires op != OpLn ==> r.Some?
  {
    match op
    case OpPlus => ar.add(l, r.value)
    case OpMinus => ar.sub(l, r.value)
    case OpTimes => ar.mul(l, r.value)
    case OpDivide => ar.div(l, r.value)
    case OpPower => ar.pow(l, r.value)
    case OpLn => ar.ln(l)
  }

  /** The value of the tree when the variable x has value `x`. */
  function Eval(e: Expr, x: real, ar: Arith): real
  {
    match e
    case Lit(v) => v
    case Var => x
    case Paren(c) => Eval(c, x, ar)
    case Add(op, l, r) => Operation(AddOpToOp(op), Eval(l, x, ar), Some(Eval(r, x, ar)), ar)
    case Mul(op, l, r) => Operation(MulOpToOp(op), Eval(l, x, ar), Some(Eval(r, x, ar)), ar)
    case Pow(l, r) => Operation(OpPower, Eval(l, x, ar), Some(Eval(r, x, ar)), ar)
    case Log(l) => Operation(OpLn, Eval(l, x, ar), None, ar)
  }

  /**
   * The value of a tree in exact real arithmetic, as a reference for the table's four
   * arithmetic entries: None when the tree holds a power or a logarithm, or divides by zero.
   */
  function ExactValue(e: Expr, x: real): Option<real>
  {
    match e
    case Lit(v) => Some(v)
    case Var => Some(x)
    case Paren(c) => ExactValue(c, x)
    case Add(op, l, r) =>
      var a, b := ExactValue(l, x), ExactValue(r, x);
      if a.None? || b.None? then None
      else Some(if op == Plus then a.value + b.value else a.value - b.value)
    case Mul(op, l, r) =>
      var a, b := ExactValue(l, x), ExactValue(r, x);
      if a.None? || b.None? then None
      else if op == Times then Some(a.value * b.value)
      else if b.value == 0.0 then None
      else Some(a.value / b.value)
    case Pow(_, _) => None
    case Log(_) => None
  }

  /**
   * With exact arithmetic, '+', '-', '*' and '/' of the table are the arithmetic on the
   * children's values: evaluation agrees with the exact value wherever that is defined.
   */
  lemma {:induction false} EvalIsExact(e: Expr, x: real, ar: Arith)
    requires RealArith(ar)
    ensures ExactValue(e, x).Some? ==> Eval(e, x, ar) == ExactValue(e, x).value
  {
    match e
    case Lit(_) =>
    case Var =>
    case Paren(c) => EvalIsExact(c, x, ar);
    case Add(op, l, r) =>
      EvalIsExact(l, x, ar);
      EvalIsExact(r, x, ar);
      AddExact(op, Eval(l, x, ar), Eval(r, x, ar), ar);
    case Mul(op, l, r) =>
      EvalIsExact(l, x, ar);
      EvalIsExact(r, x, ar);
      if ExactValue(e, x).Some? {
        MulExact(op, Eval(l, x, ar), Eval(r, x, ar), ar);
      }
    case Pow(_, _) =>
    case Log(_) =>
  }

  lemma AddExact(op: AddOp, a: real, b: real, ar: Arith)
    requires RealArith(ar)
    ensures Operation(AddOpToOp(op), a, Some(b), ar) == if op == Plus then a + b else a - b
  {
  }

  lemma MulExact(op: MulOp, a: real, b: real, ar: Arith)
    requires RealArith(ar)
    requires op == Divide ==> b != 0.0
    ensures Operation(MulOpToOp(op), a, Some(b), ar) == if op == Times then a * b else a / b
  {
  }

  /** A tree without the variable has the same value at every x: literals ignore x. */
  lemma {:induction false} EvalWithoutVar(e: Expr, x: real, y: real, ar: Arith)
    requires !HasVar(e)
    ensures Eval(e, x, ar) == Eval(e, y, ar)
  {
    match e
    case Lit(_) =>
    case Var =>
    case Paren(c) => EvalWithoutVar(c, x, y, ar);
    case Add(_, l, r) => EvalWithoutVar(l, x, y, ar); EvalWithoutVar(r, x, y, ar);
    case Mul(_, l, r) => EvalWithoutVar(l, x, y, ar); EvalWithoutVar(r, x, y, ar);
    case Pow(l, r) => EvalWithoutVar(l, x, y, ar); EvalWithoutVar(r, x, y, ar);
    case Log(l) => EvalWithoutVar(l, x, y, ar);
  }
}
