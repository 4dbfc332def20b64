/// The decimal floating-point literals a literal node is built from, and their values.
/// A literal is an optional sign, a mantissa (`Digits`, `Digits.`, `Digits.Digits` or
/// `.Digits`), an optional exponent (`e` or `E`, an optional sign, `Digits`) and an
/// optional type suffix (`f`, `F`, `d` or `D`).

module FloatLiteral {
  import opened Expressions

  predicate IsDigit(c: char)
  {
    '0' <= c <= '9'
  }

  /** A non-empty run of decimal digits. */
  predicate IsDigits(s: string)
  {
    |s| > 0 && forall i | 0 <= i < |s| :: IsDigit(s[i])
  }

  predicate IsSign(c: char)
  {
    c == '+' || c == '-'
  }

  predicate IsSuffix(c: char)
  {
    c == 'f' || c == 'F' || c == 'd' || c == 'D'
  }

  /** The characters that can occur in a literal. */
  predicate LiteralChar(c: char)
  {
    IsDigit(c) || IsSign(c) || IsSuffix(c) || c == '.' || c == 'e' || c == 'E'
  }

  function DigitValue(c: char): nat
    requires IsDigit(c)
  {
    c as int - '0' as int
  }

  /** The digits' value in base ten. */
  function DigitsValue(s: string): nat
    requires forall i | 0 <= i < |s| :: IsDigit(s[i])
  {
    if s == [] then 0 else DigitsValue(s[..|s| - 1]) * 10 + DigitValue(s[|s| - 1])
  }

  function Pow10(n: nat): (p: nat)
    ensures p > 0
  {
    if n == 0 then 1 else 10 * Pow10(n - 1)
  }

  /** v * 10^k, for an exponent k of either sign. */
  function Scale(v: real, k: int): real
  {
    if k >= 0 then v * Pow10(k) as real else v / Pow10(-k) as real
  }

  /** The first index of c in s, or |s| when s does not hold c. */
  function IndexOf(s: string, c: char): (k: nat)
    ensures k <= |s|
    ensures k < |s| ==> s[k] == c
    ensures forall j | 0 <= j < k :: s[j] != c
  {
    if s == [] then 0
    else if s[0] == c then 0
    else 1 + IndexOf(s[1..], c)
  }

  /** The mantissa's value, when m is `Digits`, `Digits.`, `Digits.Digits` or `.Digits`. */
  function MantissaValue(m: string): Option<real>
  {
    var k := IndexOf(m, '.');
    if k == |m| then
      if IsDigits(m) then Some(DigitsValue(m) as real) else None
    else
      var whole, frac := m[..k], m[k + 1..];
      var fracOk := forall i | 0 <= i < |frac| :: IsDigit(frac[i]);
      if IsDigits(whole) && fracOk then
        Some(DigitsValue(whole) as real + DigitsValue(frac) as real / Pow10(|frac|) as real)
      else if whole == [] && IsDigits(frac) then
        Some(DigitsValue(frac) as real / Pow10(|frac|) as real)
      else None
  }

  /** The exponent's value, when t is an optionally signed run of digits. */
  function ExponentValue(t: string): Option<int>
  {
    if |t| > 0 && IsSign(t[0]) then
      if IsDigits(t[1..]) then
        Some(if t[0] == '-' then -(DigitsValue(t[1..]) as int) else DigitsValue(t[1..]) as int)
      else None
    else if IsDigits(t) then Some(DigitsValue(t) as int)
    else None
  }

  /** The value of the unsigned part: mantissa, optional exponent, optional suffix. */
  function UnsignedValue(u: string): Option<real>
  {
    var body := if |u| > 0 && IsSuffix(u[|u| - 1]) then u[..|u| - 1] else u;
    var kE := IndexOf(body, 'e');
    var kU := IndexOf(body, 'E');
    var k := if kE < kU then kE else kU;
    var m := MantissaValue(body[..k]);
    if m.None? then None
    else if k == |body| then m
    else
      var ex := ExponentValue(body[k + 1..]);
      if ex.None? then None else Some(Scale(m.value, ex.value))
  }

  /**
   * The value of the literal s, or None when s is not a literal. This is the test and
   * the conversion parseLiteralExpression and the literal constructor perform, with the
   * value kept exact.
   */
  function LiteralValue(s: string): Option<real>
  {
    if |s| > 0 && IsSign(s[0]) then
      var u := UnsignedValue(s[1..]);
      if u.None? then None else if s[0] == '-' then Some(-u.value) else u
    else UnsignedValue(s)
  }

  /** The decimal text of a natural number. */
  function NatText(n: nat): (t: string)
    ensures IsDigits(t)
  {
    if n < 10 then [('0' as int + n) as char] else NatText(n / 10) + [('0' as int + n % 10) as char]
  }

  lemma {:induction false} NatTextValue(n: nat)
    ensures DigitsValue(NatText(n)) == n
  {
    var t := NatText(n);
    if n >= 10 {
      NatTextValue(n / 10);
      assert t[..|t| - 1] == NatText(n / 10);
    }
  }

  lemma {:induction false} DigitsHaveNoDot(s: string, c: char)
    requires IsDigits(s)
    requires !IsDigit(c)
    ensures IndexOf(s, c) == |s|
  {
    if s[1..] != [] {
      DigitsHaveNoDot(s[1..], c);
    }
  }

  /** A run of digits is a literal whose value is the digits' decimal value. */
  lemma DigitsLiteral(s: string)
    requires IsDigits(s)
    ensures LiteralValue(s) == Some(DigitsValue(s) as real)
  {
    assert !IsSign(s[0]) && !IsSuffix(s[|s| - 1]);
    DigitsHaveNoDot(s, 'e');
    DigitsHaveNoDot(s, 'E');
    DigitsHaveNoDot(s, '.');
    assert s[..|s|] == s;
  }

  /** Round trip: the decimal text of n is a literal of value n. */
  lemma NatTextLiteral(n: nat)
    ensures LiteralValue(NatText(n)) == Some(n as real)
  {
    NatTextValue(n);
    DigitsLiteral(NatText(n));
  }

  lemma MantissaChars(m: string)
    requires MantissaValue(m).Some?
    ensures forall i | 0 <= i < |m| :: IsDigit(m[i]) || m[i] == '.'
    ensures |m| > 0 && (IsDigit(m[|m| - 1]) || m[|m| - 1] == '.')
  {
    var k := IndexOf(m, '.');
    if k < |m| {
      var whole, frac := m[..k], m[k + 1..];
      assert m == whole + ['.'] + frac;
      assert forall i | 0 <= i < |frac| :: IsDigit(frac[i]) by {
        if !IsDigits(whole) {
          assert whole == [] && IsDigits(frac);
        }
      }
      assert forall i | 0 <= i < |whole| :: IsDigit(whole[i]);
      forall i | 0 <= i < |m|
        ensures IsDigit(m[i]) || m[i] == '.'
      {
        if i > k {
          assert m[i] == frac[i - k - 1];
        }
      }
    }
  }

  lemma ExponentChars(t: string)
    requires ExponentValue(t).Some?
    ensures forall i | 0 <= i < |t| :: IsDigit(t[i]) || IsSign(t[i])
    ensures |t| > 0 && IsDigit(t[|t| - 1])
  {
    if |t| > 0 && IsSign(t[0]) {
      assert forall i | 1 <= i < |t| :: t[i] == t[1..][i - 1];
    }
  }

  lemma BodyChars(body: string, k: nat)
    requires k <= |body|
    requires MantissaValue(body[..k]).Some?
    requires k < |body| ==> (body[k] == 'e' || body[k] == 'E') && ExponentValue(body[k + 1..]).Some?
    ensures forall i | 0 <= i < |body| :: LiteralChar(body[i])
    ensures |body| > 0 && (IsDigit(body[|body| - 1]) || body[|body| - 1] == '.')
  {
    var m := body[..k];
    MantissaChars(m);
    if k < |body| {
      var t := body[k + 1..];
      ExponentChars(t);
      assert body == m + [body[k]] + t;
      forall i | 0 <= i < |body|
        ensures LiteralChar(body[i])
      {
        if i < k {
          assert body[i] == m[i];
        } else if i > k {
          assert body[i] == t[i - k - 1];
        }
      }
    } else {
      assert body == m;
    }
  }

  lemma UnsignedChars(u: string)
    requires UnsignedValue(u).Some?
    ensures forall i | 0 <= i < |u| :: LiteralChar(u[i])
    ensures |u| > 0 && (IsDigit(u[|u| - 1]) || IsSuffix(u[|u| - 1]) || u[|u| - 1] == '.')
  {
    var body := if |u| > 0 && IsSuffix(u[|u| - 1]) then u[..|u| - 1] else u;
    var kE := IndexOf(body, 'e');
    var kU := IndexOf(body, 'E');
    var k := if kE < kU then kE else kU;
    assert MantissaValue(body[..k]).Some?;
    if k < |body| {
      assert body[k] == 'e' || body[k] == 'E';
      assert ExponentValue(body[k + 1..]).Some?;
    }
    BodyChars(body, k);
    if |u| > 0 && IsSuffix(u[|u| - 1]) {
      assert forall i | 0 <= i < |body| :: u[i] == body[i];
    } else {
      assert body == u;
    }
  }

  /**
   * Every character of a literal is a digit, a sign, '.', 'e', 'E' or a type suffix, and
   * its last character is a digit, '.' or a type suffix: never an operator, 'x', 'l' or
   * a parenthesis, and never a trailing sign.
   */
  lemma LiteralChars(s: string)
    requires LiteralValue(s).Some?
    ensures forall i | 0 <= i < |s| :: LiteralChar(s[i])
    ensures |s| > 0 && (IsDigit(s[|s| - 1]) || IsSuffix(s[|s| - 1]) || s[|s| - 1] == '.')
  {
    if |s| > 0 && IsSign(s[0]) {
      UnsignedChars(s[1..]);
      assert forall i | 1 <= i < |s| :: s[i] == s[1..][i - 1];
    } else {
      UnsignedChars(s);
    }
  }
}
