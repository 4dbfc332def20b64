/// Properties of the parser's grammar: the leftmost-candidate rule of every loop, what
/// the top-level parse reduces to, the inputs that end in an index error, and the
/// unchecked characters of the logarithm branch.

module GrammarFacts {
  import opened Expressions
  import opened FloatLiteral
  import opened Grammar

  /**
   * The leftmost decisive candidate wins: when every candidate before k comes back empty
   * and the one at k does not, the loop returns k's result.
   */
  lemma {:induction false} ScanLeftmost(lv: Level, s: string, i: nat, k: nat)
    requires i <= k < |s|
    requires forall j | i <= j < k :: At(lv, s, j).NoMatch?
    requires !At(lv, s, k).NoMatch?
    ensures Scan(lv, s, i) == At(lv, s, k)
    decreases k - i
  {
    if i < k {
      ScanLeftmost(lv, s, i + 1, k);
    }
  }

  /** The loop comes back empty exactly when every candidate from i on does. */
  lemma {:induction false} ScanNone(lv: Level, s: string, i: nat)
    requires i <= |s|
    ensures Scan(lv, s, i).NoMatch? <==> forall j | i <= j < |s| :: At(lv, s, j).NoMatch?
    decreases |s| - i
  {
    if i < |s| {
      ScanNone(lv, s, i + 1);
      if At(lv, s, i).NoMatch? {
        assert Scan(lv, s, i) == Scan(lv, s, i + 1);
      } else {
        assert !Scan(lv, s, i).NoMatch?;
        assert !(forall j | i <= j < |s| :: At(lv, s, j).NoMatch?) by {
          assert !At(lv, s, i).NoMatch?;
        }
      }
    }
  }

  /** A loop that does not come back empty returned the result of its leftmost decisive candidate. */
  lemma {:induction false} ScanFound(lv: Level, s: string, i: nat) returns (k: nat)
    requires i <= |s|
    requires !Scan(lv, s, i).NoMatch?
    ensures i <= k < |s| && Scan(lv, s, i) == At(lv, s, k)
    ensures forall j | i <= j < k :: At(lv, s, j).NoMatch?
    decreases |s| - i
  {
    if At(lv, s, i).NoMatch? {
      k := ScanFound(lv, s, i + 1);
    } else {
      k := i;
    }
  }

  /**
   * parseAdditiveExpression's rule: at the smallest index k holding '+' or '-' whose prefix
   * parses at the multiplicative level and whose suffix parses at the exponential level,
   * the result is the additive node of the two, provided no candidate before k raised.
   */
  lemma AdditiveLeftmostSplit(s: string, k: nat)
    requires k < |s| && IsAddChar(s[k])
    requires Multiplicative(s[..k]).Ok? && Exponential(s[k + 1..]).Ok?
    requires forall j | 0 <= j < k :: At(AddLevel, s, j).NoMatch?
    ensures Additive(s) == Ok(Add(AddOpOf(s[k]), Multiplicative(s[..k]).tree, Exponential(s[k + 1..]).tree))
  {
    ScanLeftmost(AddLevel, s, 0, k);
  }

  /** Without '+' and '-', the additive level is the multiplicative one. */
  lemma AdditiveFallsThrough(s: string)
    requires forall j | 0 <= j < |s| :: !IsAddChar(s[j])
    ensures Additive(s) == Multiplicative(s)
  {
    ScanNone(AddLevel, s, 0);
  }

  /**
   * The additive loop's "try the next index" case: a candidate whose two sides are not both
   * parsed, and neither raised, is skipped.
   */
  lemma AdditiveSkips(s: string, k: nat)
    requires k < |s| && IsAddChar(s[k])
    requires !Multiplicative(s[..k]).Crash? && !Exponential(s[k + 1..]).Crash?
    requires Multiplicative(s[..k]).NoMatch? || Exponential(s[k + 1..]).NoMatch?
    ensures At(AddLevel, s, k) == NoMatch
  {
  }

  /**
   * The multiplicative loop's "try the next index" case: a candidate whose two sides are not
   * both parsed, and neither raised, is skipped.
   */
  lemma MultiplicativeSkips(s: string, k: nat)
    requires k < |s| && IsMulChar(s[k])
    requires !Additive(s[..k]).Crash? && !Additive(s[k + 1..]).Crash?
    requires Additive(s[..k]).NoMatch? || Additive(s[k + 1..]).NoMatch?
    ensures At(MulLevel, s, k) == NoMatch
  {
  }

  /** With its one additive candidate skipped, the additive level is the multiplicative one. */
  lemma AdditiveFallsThroughAt(s: string, k: nat)
    requires k < |s| && At(AddLevel, s, k).NoMatch?
    requires forall j | 0 <= j < |s| && j != k :: !IsAddChar(s[j])
    ensures Additive(s) == Multiplicative(s)
  {
    ScanNone(AddLevel, s, 0);
  }

  /** With its one multiplicative candidate skipped, the multiplicative level is the exponential one. */
  lemma MultiplicativeFallsThroughAt(s: string, k: nat)
    requires k < |s| && At(MulLevel, s, k).NoMatch?
    requires forall j | 0 <= j < |s| && j != k :: !IsMulChar(s[j])
    ensures Multiplicative(s) == Exponential(s)
  {
    ScanNone(MulLevel, s, 0);
  }

  /** Without '*' and '/', the multiplicative level is the exponential one. */
  lemma MultiplicativeFallsThrough(s: string)
    requires forall j | 0 <= j < |s| :: !IsMulChar(s[j])
    ensures Multiplicative(s) == Exponential(s)
  {
    ScanNone(MulLevel, s, 0);
  }

  /** Without '^' and 'l', the exponential level is the parenthetical one. */
  lemma ExponentialIsParenthetical(s: string)
    requires forall j | 0 <= j < |s| :: s[j] != '^' && s[j] != 'l'
    ensures Exponential(s) == Parenthetical(s)
  {
    ScanNone(PowLevel, s, 0);
    ScanNone(LogLevel, s, 0);
  }

  /**
   * parseMultiplicativeExpression's rule: the leftmost '*' or '/' whose two sides both
   * parse at the additive level, provided no candidate before it raised.
   */
  lemma MultiplicativeLeftmostSplit(s: string, k: nat)
    requires k < |s| && IsMulChar(s[k])
    requires Additive(s[..k]).Ok? && Additive(s[k + 1..]).Ok?
    requires forall j | 0 <= j < k :: At(MulLevel, s, j).NoMatch?
    ensures Multiplicative(s) == Ok(Mul(MulOpOf(s[k]), Additive(s[..k]).tree, Additive(s[k + 1..]).tree))
  {
    ScanLeftmost(MulLevel, s, 0, k);
  }

  /**
   * parseExponentialExpression's rule: the leftmost '^' whose two sides both parse at the
   * additive level, provided no candidate before it raised.
   */
  lemma ExponentialLeftmostSplit(s: string, k: nat)
    requires k < |s| && s[k] == '^'
    requires Additive(s[..k]).Ok? && Additive(s[k + 1..]).Ok?
    requires forall j | 0 <= j < k :: At(PowLevel, s, j).NoMatch?
    ensures Exponential(s) == Ok(Pow(Additive(s[..k]).tree, Additive(s[k + 1..]).tree))
  {
    ScanLeftmost(PowLevel, s, 0, k);
  }

  /**
   * The second attempt of parse never helps: when the additive level comes back empty,
   * so does the parenthetical level, so parse is the additive level with an empty result
   * turned into the parse error.
   */
  lemma ParseIsAdditive(s: string)
    ensures var t := StripSpaces(s);
      Parse(s) == match Additive(t)
                  case Crash => IndexOutOfBounds
                  case Ok(e) => Success(e)
                  case NoMatch => ParseError("Cannot parse expression: " + t)
  {
    var t := StripSpaces(s);
    if Additive(t).NoMatch? {
      assert Multiplicative(t).NoMatch?;
      assert Exponential(t).NoMatch?;
      assert Parenthetical(t).NoMatch?;
    }
  }

  /** Removing the spaces of a concatenation removes them from each part. */
  lemma {:induction false} StripSpacesAppend(a: string, b: string)
    ensures StripSpaces(a + b) == StripSpaces(a) + StripSpaces(b)
  {
    if a != [] {
      assert (a + b)[0] == a[0] && (a + b)[1..] == a[1..] + b;
      StripSpacesAppend(a[1..], b);
    } else {
      assert a + b == b;
    }
  }

  lemma EmptyCrashes()
    ensures Parenthetical("").Crash? && Exponential("").Crash?
    ensures Multiplicative("").Crash? && Additive("").Crash?
  {
    assert Scan(PowLevel, "", 0) == NoMatch;
    assert Scan(MulLevel, "", 0) == NoMatch;
    assert Scan(AddLevel, "", 0) == NoMatch;
  }

  lemma StripBlank(s: string)
    requires forall i | 0 <= i < |s| :: s[i] == ' '
    ensures StripSpaces(s) == ""
  {
  }

  /** A string of spaces (the empty string among them) ends in an index error, not a parse error. */
  lemma BlankCrashes(s: string)
    requires forall i | 0 <= i < |s| :: s[i] == ' '
    ensures Parse(s) == IndexOutOfBounds
  {
    StripBlank(s);
    EmptyCrashes();
  }

  /**
   * A leading '+' or '-' is an index error: the first candidate is index 0, whose prefix
   * is the empty string.
   */
  lemma LeadingSignCrashes(s: string)
    requires |s| > 0 && IsAddChar(s[0])
    ensures Additive(s) == Crash
  {
    EmptyCrashes();
    assert s[..0] == "";
    assert At(AddLevel, s, 0) == Crash;
  }

  /**
   * A trailing '+' or '-' is an index error: the last candidate's suffix is the empty
   * string, and no candidate before it can succeed, since a successful level always ends
   * in an operand.
   */
  lemma TrailingSignCrashes(s: string)
    requires |s| > 0 && IsAddChar(s[|s| - 1])
    ensures Additive(s) == Crash
  {
    EmptyCrashes();
    var k := |s| - 1;
    assert s[k + 1..] == "";
    assert At(AddLevel, s, k).Crash?;
    ScanNone(AddLevel, s, 0);
    assert !(forall j | 0 <= j < |s| :: At(AddLevel, s, j).NoMatch?) by {
      assert !At(AddLevel, s, k).NoMatch?;
    }
    var r := Scan(AddLevel, s, 0);
    assert !r.NoMatch? && Sound(s, r);
    assert !EndsLikeOperand(s);
    assert r.Crash?;
    assert Additive(s) == r;
  }

  predicate IsOperatorChar(c: char)
  {
    IsAddChar(c) || IsMulChar(c) || c == '^' || c == 'l'
  }

  /**
   * Without operator characters and 'l', no loop has a candidate: every level is the
   * parenthetical level.
   */
  lemma NoOperatorLevels(s: string)
    requires forall i | 0 <= i < |s| :: !IsOperatorChar(s[i])
    ensures Additive(s) == Multiplicative(s) == Exponential(s) == Parenthetical(s)
  {
    ScanNone(AddLevel, s, 0);
    ScanNone(MulLevel, s, 0);
    ScanNone(PowLevel, s, 0);
    ScanNone(LogLevel, s, 0);
  }

  /** Nested empty parentheses "(...())" end in an index error. */
  lemma {:induction false} NestedEmptyParenthesesCrash(n: nat)
    ensures Additive(Nest(n)).Crash?
  {
    NestChars(n);
    NoOperatorLevels(Nest(n));
    if n == 0 {
      EmptyCrashes();
    } else {
      NestedEmptyParenthesesCrash(n - 1);
      assert Nest(n)[1..|Nest(n)| - 1] == Nest(n - 1);
    }
  }

  /** n opening parentheses followed by n closing ones. */
  function Nest(n: nat): (t: string)
    ensures |t| == 2 * n
  {
    if n == 0 then "" else "(" + Nest(n - 1) + ")"
  }

  lemma {:induction false} NestChars(n: nat)
    ensures forall i | 0 <= i < |Nest(n)| :: Nest(n)[i] == '(' || Nest(n)[i] == ')'
  {
    if n > 0 {
      NestChars(n - 1);
      assert forall i | 1 <= i < |Nest(n)| - 1 :: Nest(n)[i] == Nest(n - 1)[i - 1];
    }
  }

  lemma {:induction false} LogScanUpTo(p: string, s: string, i: nat)
    requires |p| <= |s| && s[..|p|] == p
    requires i <= |p|
    requires forall j | i <= j < |p| :: s[j] != 'l'
    ensures Scan(LogLevel, s, i) == Scan(LogLevel, s, |p|)
    decreases |p| - i
  {
    if i < |p| {
      LogScanUpTo(p, s, i + 1);
    }
  }

  /** A string holding a character no literal holds ('l', 'x', '(' or an operator) is not a literal. */
  lemma NotALiteral(s: string, k: nat)
    requires k < |s| && !LiteralChar(s[k])
    ensures Literal(s) == NoMatch
  {
    if LiteralValue(s).Some? {
      LiteralChars(s);
    }
  }

  predicate NoCaret(s: string)
  {
    forall i | 0 <= i < |s| :: s[i] != '^'
  }

  /** Without '^', the exponential level is the parenthetical level, else the logarithm loop. */
  lemma NoCaretExponential(s: string)
    requires NoCaret(s)
    ensures Exponential(s) == if Parenthetical(s).NoMatch? then Scan(LogLevel, s, 0) else Parenthetical(s)
  {
    ScanNone(PowLevel, s, 0);
  }

  /**
   * A string holding an 'l' that does not start with '(' is not parenthetical, and the
   * logarithm loop goes straight to its first 'l', whose argument is the string from
   * three characters later.
   */
  lemma FirstLogArgument(s: string, k: nat)
    requires k + 3 <= |s| && s[k] == 'l'
    requires forall j | 0 <= j < k :: s[j] != 'l'
    requires s[0] != '('
    requires !Parenthetical(s[k + 3..]).NoMatch?
    ensures NoCaret(s) ==> Exponential(s) == At(LogLevel, s, k)
  {
    NotALiteral(s, k);
    assert Parenthetical(s) == NoMatch;
    LogScanUpTo(s[..k], s, 0);
    if NoCaret(s) {
      NoCaretExponential(s);
    }
  }

  /**
   * A string that is not wrapped in parentheses, is not "x", and holds a character no
   * literal holds, is not parenthetical.
   */
  lemma NotParenthetical(s: string, k: nat)
    requires k < |s| && !LiteralChar(s[k])
    requires s != "x" && !(s[0] == '(' && s[|s| - 1] == ')')
    ensures Parenthetical(s) == NoMatch
  {
    NotALiteral(s, k);
  }

  /** The variable at every level. */
  lemma VariableLevels()
    ensures Additive("x") == Multiplicative("x") == Exponential("x") == Parenthetical("x") == Ok(Var)
  {
    NotALiteral("x", 0);
    NoOperatorLevels("x");
  }

  /** A run of digits at every level: the literal of its decimal value. */
  lemma DigitsLevels(s: string)
    requires IsDigits(s)
    ensures Additive(s) == Multiplicative(s) == Exponential(s) == Parenthetical(s)
         == Ok(Lit(DigitsValue(s) as real))
  {
    assert forall i | 0 <= i < |s| :: !IsOperatorChar(s[i]) by {
      forall i | 0 <= i < |s| ensures !IsOperatorChar(s[i]) {
        assert IsDigit(s[i]);
      }
    }
    NoOperatorLevels(s);
    DigitsLiteral(s);
    assert s[0] != '(';
    assert Literal(s) == Ok(Lit(DigitsValue(s) as real));
  }

  /** The decimal text of every natural number parses to the literal of that value. */
  lemma NaturalParses(n: nat)
    ensures Parse(NatText(n)) == Success(Lit(n as real))
  {
    var t := NatText(n);
    NatTextLiteral(n);
    DigitsLevels(t);
    assert DigitsValue(t) as real == n as real by {
      DigitsLiteral(t);
    }
    assert forall i | 0 <= i < |t| :: t[i] != ' ' by {
      forall i | 0 <= i < |t| ensures t[i] != ' ' {
        assert IsDigit(t[i]);
      }
    }
    assert ' ' !in t;
    ParseIsAdditive(t);
  }

  /**
   * The logarithm branch checks neither what precedes the 'l' nor the two characters
   * after it: with no '^' anywhere, no 'l' before it, and no '(' at the start, the string
   * p + "l" + [a, b] + t parses at the exponential level exactly as "log" + t does,
   * whenever t itself is not empty at the parenthetical level.
   */
  lemma LogBranchSkipsUnchecked(p: string, a: char, b: char, t: string)
    requires forall i | 0 <= i < |p| :: p[i] != 'l'
    requires NoCaret(p + ['l', a, b] + t) && NoCaret("log" + t)
    requires p == [] || p[0] != '('
    requires !Parenthetical(t).NoMatch?
    ensures Exponential(p + ['l', a, b] + t) == Exponential("log" + t)
  {
    var s := p + ['l', a, b] + t;
    var g := "log" + t;
    assert s[|p|] == 'l' && s[|p| + 3..] == t;
    assert g[0] == 'l' && g[3..] == t;
    assert forall j | 0 <= j < |p| :: s[j] != 'l' by {
      forall j | 0 <= j < |p| ensures s[j] != 'l' {
        assert s[j] == p[j];
      }
    }
    assert s[0] != '(' by {
      if p != [] {
        assert s[0] == p[0];
      }
    }
    LogAt(s, |p|);
    LogAt(g, 0);
    FirstLogArgument(s, |p|);
    FirstLogArgument(g, 0);
  }

  /** The logarithm loop's body at an 'l': the string from three characters later, as a logarithm. */
  lemma LogAt(s: string, k: nat)
    requires k + 3 <= |s| && s[k] == 'l'
    ensures At(LogLevel, s, k) == (if Parenthetical(s[k + 3..]).Ok? then Ok(Log(Parenthetical(s[k + 3..]).tree))
                                   else Parenthetical(s[k + 3..]))
  {
  }
}
