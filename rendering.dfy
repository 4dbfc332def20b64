/// The indented one-node-per-line rendering of a tree (convertToString), built from the
/// shared operator renderer (opToString).

module Rendering {
  import opened Expressions

  /** `n` tab characters. */
  function Tabs(n: nat): (t: string)
    ensures |t| == n
    ensures forall i | 0 <= i < n :: t[i] == '\t'
  {
    if n == 0 then "" else Tabs(n - 1) + "\t"
  }

  /**
   * The shared renderer: the operator's line at indent `n`, then the children at `n + 1`.
   * '(' prints "()" and only the left child; 'l' prints its line and only the left child.
   * `show` is the text of a float literal (Float.toString).
   */
  function OpToString(n: nat, op: char, l: Expr, r: Option<Expr>, show: real -> string): string
    requires op != '(' && op != 'l' ==> r.Some?
    decreases Size(l) + OptionSize(r), 2
  {
    var rest := ToString(l, n + 1, show) + (if op != '(' && op != 'l' then ToString(r.value, n + 1, show) else "");
    var head := Tabs(n) + (if op == '(' then "()" else [op]) + "\n";
    head + rest
  }

  /** convertToString(n) of every node class. */
  function ToString(e: Expr, n: nat, show: real -> string): string
    decreases Size(e), 1
  {
    match e
    case Lit(v) => Tabs(n) + show(v) + "\n"
    case Var => Tabs(n) + "x" + "\n"
    case Paren(c) => OpToString(n, '(', c, None, show)
    case Add(op, l, r) => OpToString(n, AddChar(op), l, Some(r), show)
    case Mul(op, l, r) => OpToString(n, MulChar(op), l, Some(r), show)
    case Pow(l, r) => OpToString(n, '^', l, Some(r), show)
    case Log(l) => OpToString(n, 'l', l, None, show)
  }

  /** Every rendering ends with the newline of its last line. */
  lemma {:induction false} EndsWithNewline(e: Expr, n: nat, show: real -> string)
    ensures ToString(e, n, show) != [] && ToString(e, n, show)[|ToString(e, n, show)| - 1] == '\n'
    decreases Size(e), 1
  {
    match e
    case Lit(v) =>
    case Var =>
    case Paren(c) =>
      UnaryNewline(n, '(', c, show);
    case Add(op, l, r) =>
      BinaryNewline(n, AddChar(op), l, r, show);
    case Mul(op, l, r) =>
      BinaryNewline(n, MulChar(op), l, r, show);
    case Pow(l, r) =>
      BinaryNewline(n, '^', l, r, show);
    case Log(l) =>
      UnaryNewline(n, 'l', l, show);
  }

  lemma {:induction false} BinaryNewline(n: nat, op: char, l: Expr, r: Expr, show: real -> string)
    requires op != '(' && op != 'l'
    ensures OpToString(n, op, l, Some(r), show) != []
    ensures OpToString(n, op, l, Some(r), show)[|OpToString(n, op, l, Some(r), show)| - 1] == '\n'
    decreases 1 + Size(l) + Size(r), 0
  {
    var a := Tabs(n) + [op] + "\n" + ToString(l, n + 1, show);
    var b := ToString(r, n + 1, show);
    OpToStringShape(n, op, l, Some(r), show);
    assert OpToString(n, op, l, Some(r), show) == a + b;
    EndsWithNewline(r, n + 1, show);
    LastOfAppend(a, b);
  }

  lemma {:induction false} UnaryNewline(n: nat, op: char, l: Expr, show: real -> string)
    requires op == '(' || op == 'l'
    ensures OpToString(n, op, l, None, show) != []
    ensures OpToString(n, op, l, None, show)[|OpToString(n, op, l, None, show)| - 1] == '\n'
    decreases 1 + Size(l), 0
  {
    var a := Tabs(n) + (if op == '(' then "()" else [op]) + "\n";
    var b := ToString(l, n + 1, show);
    OpToStringShape(n, op, l, None, show);
    assert OpToString(n, op, l, None, show) == a + b + "";
    assert a + b + "" == a + b;
    EndsWithNewline(l, n + 1, show);
    LastOfAppend(a, b);
  }

  lemma LastOfAppend(a: string, b: string)
    requires b != []
    ensures a + b != [] && (a + b)[|a + b| - 1] == b[|b| - 1]
  {
  }

  /** Literal texts are single lines, as Float.toString's are. */
  ghost predicate SingleLine(show: real -> string)
  {
    forall v :: '\n' !in show(v)
  }

  function CountNewlines(s: string): nat
  {
    if s == [] then 0 else (if s[0] == '\n' then 1 else 0) + CountNewlines(s[1..])
  }

  /** Insert a tab at the start of every line of `s` (`atStart`: `s` begins a line). */
  function IndentFrom(s: string, atStart: bool): string
  {
    if s == [] then []
    else (if atStart then "\t" else "") + [s[0]] + IndentFrom(s[1..], s[0] == '\n')
  }

  function Indent(s: string): string
  {
    IndentFrom(s, true)
  }

  lemma {:induction false} CountNewlinesAppend(a: string, b: string)
    ensures CountNewlines(a + b) == CountNewlines(a) + CountNewlines(b)
  {
    if a == [] {
      assert a + b == b;
    } else {
      assert (a + b)[0] == a[0];
      assert (a + b)[1..] == a[1..] + b;
      CountNewlinesAppend(a[1..], b);
    }
  }

  lemma {:induction false} CountNewlinesNone(s: string)
    requires '\n' !in s
    ensures CountNewlines(s) == 0
  {
    if s != [] {
      CountNewlinesNone(s[1..]);
    }
  }

  lemma {:induction false} IndentFromAppend(a: string, b: string, atStart: bool)
    ensures IndentFrom(a + b, atStart)
         == IndentFrom(a, atStart) + IndentFrom(b, if a == [] then atStart else a[|a| - 1] == '\n')
  {
    if a == [] {
      assert a + b == b;
    } else {
      assert (a + b)[0] == a[0];
      assert (a + b)[1..] == a[1..] + b;
      IndentFromAppend(a[1..], b, a[0] == '\n');
      assert a[1..] != [] ==> a[1..][|a[1..]| - 1] == a[|a| - 1];
    }
  }

  lemma {:induction false} IndentFromNoNewline(w: string)
    requires '\n' !in w
    ensures IndentFrom(w, false) == w
  {
    if w != [] {
      IndentFromNoNewline(w[1..]);
    }
  }

  lemma LineIndent(w: string)
    requires '\n' !in w
    ensures IndentFrom(w + "\n", true) == "\t" + w + "\n"
  {
    var nl: string := "\n";
    assert IndentFrom(nl, false) == nl by {
      assert nl[1..] == [];
    }
    if w == [] {
      assert w + nl == nl;
      assert IndentFrom(nl, true) == "\t" + nl by {
        assert nl[1..] == [];
      }
    } else {
      IndentFromAppend(w, nl, true);
      IndentFromNoNewline(w[1..]);
      assert IndentFrom(w, true) == "\t" + [w[0]] + w[1..];
      assert [w[0]] + w[1..] == w;
    }
  }

  lemma TabsPrepend(n: nat)
    ensures "\t" + Tabs(n) == Tabs(n + 1)
  {
    var a, b := "\t" + Tabs(n), Tabs(n + 1);
    assert |a| == |b|;
    forall i | 0 <= i < |a| ensures a[i] == b[i] {
    }
  }

  /** One header line: indenting it adds exactly one tab in front. */
  lemma IndentLine(n: nat, w: string)
    requires '\n' !in w
    ensures Indent(Tabs(n) + w + "\n") == Tabs(n + 1) + w + "\n"
  {
    var line := Tabs(n) + w;
    assert '\n' !in line by {
      forall i | 0 <= i < |line| ensures line[i] != '\n' {
        if i >= n {
          assert line[i] == w[i - n];
        }
      }
    }
    LineIndent(line);
    TabsPrepend(n);
    assert "\t" + line + "\n" == ("\t" + Tabs(n)) + w + "\n";
  }

  /** How the shared renderer lays out its lines. */
  lemma OpToStringShape(n: nat, op: char, l: Expr, r: Option<Expr>, show: real -> string)
    requires op != '(' && op != 'l' ==> r.Some?
    ensures OpToString(n, op, l, r, show)
         == Tabs(n) + (if op == '(' then "()" else [op]) + "\n" + ToString(l, n + 1, show)
            + (if op != '(' && op != 'l' then ToString(r.value, n + 1, show) else "")
  {
  }

  lemma BinaryShape(n: nat, op: char, l: Expr, r: Expr, show: real -> string)
    requires op != '(' && op != 'l'
    ensures OpToString(n, op, l, Some(r), show)
         == Tabs(n) + [op] + "\n" + ToString(l, n + 1, show) + ToString(r, n + 1, show)
  {
    OpToStringShape(n, op, l, Some(r), show);
  }

  /** Each node contributes exactly one line, so a rendering has as many lines as nodes. */
  lemma {:induction false} LineCount(e: Expr, n: nat, show: real -> string)
    requires SingleLine(show)
    ensures CountNewlines(ToString(e, n, show)) == Size(e)
    decreases e
  {
    match e
    case Lit(v) =>
      LeafCount(n, show(v));
    case Var =>
      LeafCount(n, "x");
    case Paren(c) =>
      LineCount(c, n + 1, show);
      UnaryCount(n, '(', c, show);
    case Add(op, l, r) =>
      LineCount(l, n + 1, show);
      LineCount(r, n + 1, show);
      BinaryCount(n, AddChar(op), l, r, show);
    case Mul(op, l, r) =>
      LineCount(l, n + 1, show);
      LineCount(r, n + 1, show);
      BinaryCount(n, MulChar(op), l, r, show);
    case Pow(l, r) =>
      LineCount(l, n + 1, show);
      LineCount(r, n + 1, show);
      BinaryCount(n, '^', l, r, show);
    case Log(l) =>
      LineCount(l, n + 1, show);
      UnaryCount(n, 'l', l, show);
  }

  lemma LeafCount(n: nat, w: string)
    requires '\n' !in w
    ensures CountNewlines(Tabs(n) + w + "\n") == 1
  {
    HeaderCount(n, w, "", "");
    assert Tabs(n) + w + "\n" + "" + "" == Tabs(n) + w + "\n";
  }

  lemma BinaryCount(n: nat, op: char, l: Expr, r: Expr, show: real -> string)
    requires op != '(' && op != 'l' && op != '\n'
    ensures CountNewlines(OpToString(n, op, l, Some(r), show))
         == 1 + CountNewlines(ToString(l, n + 1, show)) + CountNewlines(ToString(r, n + 1, show))
  {
    OpToStringShape(n, op, l, Some(r), show);
    HeaderCount(n, [op], ToString(l, n + 1, show), ToString(r, n + 1, show));
  }

  lemma UnaryCount(n: nat, op: char, l: Expr, show: real -> string)
    requires op == '(' || op == 'l'
    ensures CountNewlines(OpToString(n, op, l, None, show)) == 1 + CountNewlines(ToString(l, n + 1, show))
  {
    OpToStringShape(n, op, l, None, show);
    var w := if op == '(' then "()" else [op];
    HeaderCount(n, w, ToString(l, n + 1, show), "");
  }

  lemma HeaderCount(n: nat, w: string, a: string, b: string)
    requires '\n' !in w
    ensures CountNewlines(Tabs(n) + w + "\n" + a + b) == 1 + CountNewlines(a) + CountNewlines(b)
  {
    CountNewlinesAppend(Tabs(n) + w + "\n" + a, b);
    CountNewlinesAppend(Tabs(n) + w + "\n", a);
    CountNewlinesAppend(Tabs(n) + w, "\n");
    CountNewlinesAppend(Tabs(n), w);
    CountNewlinesNone(Tabs(n));
    CountNewlinesNone(w);
    assert CountNewlines("\n") == 1 by {
      assert "\n"[1..] == [];
    }
  }

  lemma HeaderIndent(n: nat, w: string, a: string, b: string)
    requires '\n' !in w
    requires a != [] && a[|a| - 1] == '\n'
    ensures Indent(Tabs(n) + w + "\n" + a + b) == Tabs(n + 1) + w + "\n" + Indent(a) + Indent(b)
  {
    var h := Tabs(n) + w + "\n";
    assert h + a + b == h + (a + b);
    IndentFromAppend(h, a + b, true);
    IndentFromAppend(a, b, true);
    IndentLine(n, w);
  }

  /** Indenting a binary node's rendering indents its header and both children. */
  lemma BinaryIndent(n: nat, op: char, l: Expr, r: Expr, show: real -> string)
    requires op != '(' && op != 'l' && op != '\n'
    requires ToString(l, n + 2, show) == Indent(ToString(l, n + 1, show))
    requires ToString(r, n + 2, show) == Indent(ToString(r, n + 1, show))
    ensures OpToString(n + 1, op, l, Some(r), show) == Indent(OpToString(n, op, l, Some(r), show))
  {
    var a, b := ToString(l, n + 1, show), ToString(r, n + 1, show);
    BinaryShape(n, op, l, r, show);
    BinaryShape(n + 1, op, l, r, show);
    EndsWithNewline(l, n + 1, show);
    HeaderIndent(n, [op], a, b);
  }

  /** The same for a node that renders only its left child ('(' and 'l'). */
  lemma UnaryIndent(n: nat, op: char, l: Expr, show: real -> string)
    requires op == '(' || op == 'l'
    requires ToString(l, n + 2, show) == Indent(ToString(l, n + 1, show))
    ensures OpToString(n + 1, op, l, None, show) == Indent(OpToString(n, op, l, None, show))
  {
    var w := if op == '(' then "()" else [op];
    var a := ToString(l, n + 1, show);
    OpToStringShape(n, op, l, None, show);
    OpToStringShape(n + 1, op, l, None, show);
    assert OpToString(n, op, l, None, show) == Tabs(n) + w + "\n" + a + "";
    EndsWithNewline(l, n + 1, show);
    HeaderIndent(n, w, a, "");
    assert Indent("") == "";
  }

  /**
   * Rendering at indent n + 1 is rendering at indent n with one more tab in front of
   * every line.
   */
  lemma {:induction false} IndentShift(e: Expr, n: nat, show: real -> string)
    requires SingleLine(show)
    ensures ToString(e, n + 1, show) == Indent(ToString(e, n, show))
    decreases e
  {
    match e
    case Lit(v) =>
      IndentLine(n, show(v));
    case Var =>
      IndentLine(n, "x");
    case Paren(c) =>
      IndentShift(c, n + 1, show);
      UnaryIndent(n, '(', c, show);
    case Add(op, l, r) =>
      IndentShift(l, n + 1, show);
      IndentShift(r, n + 1, show);
      BinaryIndent(n, AddChar(op), l, r, show);
    case Mul(op, l, r) =>
      IndentShift(l, n + 1, show);
      IndentShift(r, n + 1, show);
      BinaryIndent(n, MulChar(op), l, r, show);
    case Pow(l, r) =>
      IndentShift(l, n + 1, show);
      IndentShift(r, n + 1, show);
      BinaryIndent(n, '^', l, r, show);
    case Log(l) =>
      IndentShift(l, n + 1, show);
      UnaryIndent(n, 'l', l, show);
  }

  lemma NoOpenParenthesis(n: nat, w: string, a: string, b: string)
    requires '(' !in w && '(' !in a && '(' !in b
    ensures '(' !in Tabs(n) + w + "\n" + a + b
  {
  }

  lemma BinaryNoOpenParenthesis(n: nat, op: char, l: Expr, r: Expr, show: real -> string)
    requires op != '(' && op != 'l'
    requires '(' !in ToString(l, n + 1, show) && '(' !in ToString(r, n + 1, show)
    ensures '(' !in OpToString(n, op, l, Some(r), show)
  {
    OpToStringShape(n, op, l, Some(r), show);
    NoOpenParenthesis(n, [op], ToString(l, n + 1, show), ToString(r, n + 1, show));
  }

  lemma LogNoOpenParenthesis(n: nat, l: Expr, show: real -> string)
    requires '(' !in ToString(l, n + 1, show)
    ensures '(' !in OpToString(n, 'l', l, None, show)
  {
    OpToStringShape(n, 'l', l, None, show);
    NoOpenParenthesis(n, "l", ToString(l, n + 1, show), "");
  }

  /**
   * A tree without parenthetical nodes renders without '(' when no literal's text holds
   * one: the "()" line is the parenthetical node's.
   */
  lemma {:induction false} ParenFreeRendering(e: Expr, n: nat, show: real -> string)
    requires ParenFree(e)
    requires forall v :: '(' !in show(v)
    ensures '(' !in ToString(e, n, show)
    decreases e
  {
    match e
    case Lit(v) =>
      NoOpenParenthesis(n, show(v), "", "");
      assert Tabs(n) + show(v) + "\n" + "" + "" == ToString(e, n, show);
    case Var =>
      NoOpenParenthesis(n, "x", "", "");
      assert Tabs(n) + "x" + "\n" + "" + "" == ToString(e, n, show);
    case Add(op, l, r) =>
      ParenFreeRendering(l, n + 1, show);
      ParenFreeRendering(r, n + 1, show);
      BinaryNoOpenParenthesis(n, AddChar(op), l, r, show);
    case Mul(op, l, r) =>
      ParenFreeRendering(l, n + 1, show);
      ParenFreeRendering(r, n + 1, show);
      BinaryNoOpenParenthesis(n, MulChar(op), l, r, show);
    case Pow(l, r) =>
      ParenFreeRendering(l, n + 1, show);
      ParenFreeRendering(r, n + 1, show);
      BinaryNoOpenParenthesis(n, '^', l, r, show);
    case Log(l) =>
      ParenFreeRendering(l, n + 1, show);
      LogNoOpenParenthesis(n, l, show);
  }
}
