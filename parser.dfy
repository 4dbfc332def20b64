/// SimpleExpressionParser as written: one method per grammar level, each a loop over the
/// string's indices that returns at the first candidate whose two sides both parse, and
/// falls through to the next level when the loop ends. Each method computes exactly the
/// function of the same level in Grammar; an index error is returned as `Crash` at the
/// point where the code would throw.

module Parser {
  import opened Expressions
  import opened Grammar

  /** parseAdditiveExpression */
  method ParseAdditiveExpression(s: string) returns (r: Parsed)
    ensures r == Additive(s)
    decreases |s|, 9, 0
  {
    for i := 0 to |s|
      invariant Scan(AddLevel, s, i) == Scan(AddLevel, s, 0)
    {
      var op := s[i];
      if IsAddChar(op) {
        var left := ParseMultiplicativeExpression(s[..i]);
        if left.Crash? {
          return Crash;
        }
        var right := ParseExponentialExpression(s[i + 1..]);
        if right.Crash? {
          return Crash;
        }
        if left.Ok? && right.Ok? {
          return Ok(Add(AddOpOf(op), left.tree, right.tree));
        }
      }
    }
    r := ParseMultiplicativeExpression(s);
  }

  /** parseMultiplicativeExpression */
  method ParseMultiplicativeExpression(s: string) returns (r: Parsed)
    ensures r == Multiplicative(s)
    decreases |s|, 6, 0
  {
    for i := 0 to |s|
      invariant Scan(MulLevel, s, i) == Scan(MulLevel, s, 0)
    {
      var op := s[i];
      if IsMulChar(op) {
        var left := ParseAdditiveExpression(s[..i]);
        if left.Crash? {
          return Crash;
        }
        var right := ParseAdditiveExpression(s[i + 1..]);
        if right.Crash? {
          return Crash;
        }
        if left.Ok? && right.Ok? {
          return Ok(Mul(MulOpOf(op), left.tree, right.tree));
        }
      }
    }
    r := ParseExponentialExpression(s);
  }

  /** parseExponentialExpression: the '^' loop, the parenthetical test, the 'l' loop. */
  method ParseExponentialExpression(s: string) returns (r: Parsed)
    ensures r == Exponential(s)
    decreases |s|, 3, 0
  {
    for i := 0 to |s|
      invariant Scan(PowLevel, s, i) == Scan(PowLevel, s, 0)
    {
      if s[i] == '^' {
        var left := ParseAdditiveExpression(s[..i]);
        if left.Crash? {
          return Crash;
        }
        var right := ParseAdditiveExpression(s[i + 1..]);
        if right.Crash? {
          return Crash;
        }
        if left.Ok? && right.Ok? {
          return Ok(Pow(left.tree, right.tree));
        }
      }
    }
    // The code parses the whole string at the parenthetical level twice: once to test
    // and once to return it.
    var whole := ParseParentheticalExpression(s);
    if whole.Crash? {
      return Crash;
    }
    if whole.Ok? {
      r := ParseParentheticalExpression(s);
      return;
    }
    for i := 0 to |s|
      invariant Scan(LogLevel, s, i) == Scan(LogLevel, s, 0)
    {
      if s[i] == 'l' {
        if i + 3 > |s| {
          return Crash;
        }
        var right := ParseParentheticalExpression(s[i + 3..]);
        if right.Crash? {
          return Crash;
        }
        if right.Ok? {
          return Ok(Log(right.tree));
        }
      }
    }
    return NoMatch;
  }

  /** parseParentheticalExpression */
  method ParseParentheticalExpression(s: string) returns (r: Parsed)
    ensures r == Parenthetical(s)
    decreases |s|, 0, 0
  {
    if |s| == 0 {
      return Crash;
    }
    if s[0] == '(' && s[|s| - 1] == ')' {
      r := ParseAdditiveExpression(s[1..|s| - 1]);
      return;
    }
    r := Literal(s);
    if !r.Ok? {
      r := Variable(s);
    }
  }

  /** parse */
  method Parse(s: string) returns (r: ParseResult)
    ensures r == Grammar.Parse(s)
  {
    var t := StripSpaces(s);
    var e := ParseAdditiveExpression(t);
    if e.Crash? {
      return IndexOutOfBounds;
    }
    if e.NoMatch? {
      e := ParseParentheticalExpression(t);
      if e.Crash? {
        return IndexOutOfBounds;
      }
      if e.NoMatch? {
        return ParseError("Cannot parse expression: " + t);
      }
    }
    r := Success(e.tree);
  }
}
