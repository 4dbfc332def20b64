/// What SimpleExpressionParser computes, as functions on the raw string. Each grammar level
/// scans the string left to right for its operator characters; at a candidate index it
/// parses the two sides at fixed levels, and the first candidate that does not come back
/// empty decides the level's result. A substring the code indexes out of bounds is a
/// `Crash`: it escapes every level and ends the whole parse.

module Grammar {
  import opened Expressions
  import opened FloatLiteral

  /** A level's outcome: a tree, null (no match), or an index-out-of-bounds exception. */
  datatype Parsed = Ok(tree: Expr) | NoMatch | Crash

  /** The outcome of the whole parse. */
  datatype ParseResult = Success(tree: Expr) | ParseError(message: string) | IndexOutOfBounds

  /** The four scanning loops: additive, multiplicative, exponential ('^') and logarithm ('l'). */
  datatype Level = AddLevel | MulLevel | PowLevel | LogLevel

  predicate IsAddChar(c: char)
  {
    c == '+' || c == '-'
  }

  predicate IsMulChar(c: char)
  {
    c == '*' || c == '/'
  }

  function AddOpOf(c: char): (op: AddOp)
    requires IsAddChar(c)
    ensures AddChar(op) == c
  {
    if c == '+' then Plus else Minus
  }

  function MulOpOf(c: char): (op: MulOp)
    requires IsMulChar(c)
    ensures MulChar(op) == c
  {
    if c == '*' then Times else Divide
  }

  /**
   * The last character of a string a level can parse: the ')' of a parenthesised string,
   * the 'x' of the variable, or the last character of a literal.
   */
  predicate EndsLikeOperand(s: string)
  {
    |s| > 0 && (s[|s| - 1] == ')' || s[|s| - 1] == 'x' || IsDigit(s[|s| - 1])
                || IsSuffix(s[|s| - 1]) || s[|s| - 1] == '.')
  }

  /** What every successful level promises: no parenthetical node, and an operand at the end. */
  predicate Sound(s: string, r: Parsed)
  {
    r.Ok? ==> ParenFree(r.tree) && EndsLikeOperand(s)
  }

  /** Two sides parsed at a candidate index: a crash on either side escapes, two trees join. */
  function Join(l: Parsed, r: Parsed, c: char): (p: Parsed)
    requires c == '^' || IsAddChar(c) || IsMulChar(c)
    ensures p.Ok? <==> l.Ok? && r.Ok?
    ensures p.Crash? <==> l.Crash? || r.Crash?
  {
    if l.Crash? || r.Crash? then Crash
    else if l.Ok? && r.Ok? then
      Ok(if IsAddChar(c) then Add(AddOpOf(c), l.tree, r.tree)
         else if IsMulChar(c) then Mul(MulOpOf(c), l.tree, r.tree)
         else Pow(l.tree, r.tree))
    else NoMatch
  }

  function AtRank(lv: Level): nat
  {
    match lv
    case AddLevel => 7
    case MulLevel => 4
    case PowLevel => 1
    case LogLevel => 1
  }

  /** parseVariableExpression: the variable exactly for "x". */
  function Variable(s: string): Parsed
  {
    if s == "x" then Ok(Var) else NoMatch
  }

  /** parseLiteralExpression: a literal node when s is a decimal literal. */
  function Literal(s: string): (r: Parsed)
    ensures Sound(s, r)
  {
    match LiteralValue(s)
    case Some(v) => LiteralChars(s); Ok(Lit(v))
    case None => NoMatch
  }

  /**
   * The loop body at index i of the level's loop. Additive: '+' or '-' with the prefix at
   * the multiplicative level and the suffix at the exponential level. Multiplicative: '*'
   * or '/' with both sides additive. Exponential: '^' with both sides additive. Logarithm:
   * 'l', with the string from i + 3 on parenthetical; the two characters after the 'l'
   * are skipped unchecked, and fewer than three characters from i on is an index error.
   */
  function At(lv: Level, s: string, i: nat): (r: Parsed)
    requires i < |s|
    ensures Sound(s, r)
    decreases |s|, AtRank(lv), 0
  {
    match lv
    case AddLevel =>
      if IsAddChar(s[i]) then Join(Multiplicative(s[..i]), Exponential(s[i + 1..]), s[i]) else NoMatch
    case MulLevel =>
      if IsMulChar(s[i]) then Join(Additive(s[..i]), Additive(s[i + 1..]), s[i]) else NoMatch
    case PowLevel =>
      if s[i] == '^' then Join(Additive(s[..i]), Additive(s[i + 1..]), s[i]) else NoMatch
    case LogLevel =>
      if s[i] != 'l' then NoMatch
      else if i + 3 > |s| then Crash
      else
        var p := Parenthetical(s[i + 3..]);
        assert p.Ok? ==> s[|s| - 1] == s[i + 3..][|s[i + 3..]| - 1];
        if p.Ok? then Ok(Log(p.tree)) else p
  }

  /** The level's loop from index i on: the first candidate that is not a NoMatch decides. */
  function Scan(lv: Level, s: string, i: nat): (r: Parsed)
    requires i <= |s|
    ensures Sound(s, r)
    decreases |s|, AtRank(lv) + 1, |s| - i
  {
    if i == |s| then NoMatch
    else
      var p := At(lv, s, i);
      if !p.NoMatch? then p else Scan(lv, s, i + 1)
  }

  /** parseAdditiveExpression: the additive loop, else the multiplicative level. */
  function Additive(s: string): (r: Parsed)
    ensures Sound(s, r)
    decreases |s|, 9, 0
  {
    var p := Scan(AddLevel, s, 0);
    if !p.NoMatch? then p else Multiplicative(s)
  }

  /** parseMultiplicativeExpression: the multiplicative loop, else the exponential level. */
  function Multiplicative(s: string): (r: Parsed)
    ensures Sound(s, r)
    decreases |s|, 6, 0
  {
    var p := Scan(MulLevel, s, 0);
    if !p.NoMatch? then p else Exponential(s)
  }

  /**
   * parseExponentialExpression: the '^' loop, else the whole string at the parenthetical
   * level, else the logarithm loop.
   */
  function Exponential(s: string): (r: Parsed)
    ensures Sound(s, r)
    decreases |s|, 3, 0
  {
    var p := Scan(PowLevel, s, 0);
    if !p.NoMatch? then p
    else
      var q := Parenthetical(s);
      if !q.NoMatch? then q else Scan(LogLevel, s, 0)
  }

  /**
   * parseParentheticalExpression: the empty string is an index error; a string that starts
   * with '(' and ends with ')' is its interior at the additive level, with no node for the
   * parentheses; otherwise a literal, else the variable.
   */
  function Parenthetical(s: string): (r: Parsed)
    ensures Sound(s, r)
    decreases |s|, 0, 0
  {
    if |s| == 0 then Crash
    else if s[0] == '(' && s[|s| - 1] == ')' then Additive(s[1..|s| - 1])
    else
      var l := Literal(s);
      if l.Ok? then l else Variable(s)
  }

  /**
   * str.replaceAll(" ", ""): every space removed, every other character kept in order. The
   * order is GrammarFacts.StripSpacesAppend: stripping distributes over concatenation.
   */
  function StripSpaces(s: string): (t: string)
    ensures ' ' !in t
    ensures ' ' !in s ==> t == s
    ensures forall c | c != ' ' :: multiset(t)[c] == multiset(s)[c]
    ensures |t| <= |s|
  {
    if s == [] then []
    else
      assert s == [s[0]] + s[1..];
      if s[0] == ' ' then StripSpaces(s[1..]) else [s[0]] + StripSpaces(s[1..])
  }

  /**
   * parse: strip the spaces, try the additive level, then the parenthetical level, and
   * report a parse error carrying the stripped string when both come back empty. An index
   * error on the way is not caught and escapes as such.
   */
  function Parse(s: string): (r: ParseResult)
    ensures r.Success? ==> ParenFree(r.tree)
  {
    var t := StripSpaces(s);
    var a := Additive(t);
    if a.Crash? then IndexOutOfBounds
    else if a.Ok? then Success(a.tree)
    else
      var p := Parenthetical(t);
      if p.Crash? then IndexOutOfBounds
      else if p.Ok? then Success(p.tree)
      else ParseError("Cannot parse expression: " + t)
  }
}
