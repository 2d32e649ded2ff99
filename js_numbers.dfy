/** JavaScript number semantics used by the frontend: truncating `%`, `Math.round`,
    `Math.min` and `Math.max`, and the decimal text a template literal gives an integer. */
module JsNumbers {

  /** `Math.min` and `Math.max` on integers, and `Math.max` on reals. */
  function Min(a: int, b: int): (r: int)
    ensures r <= a && r <= b && (r == a || r == b)
  {
    if a <= b then a else b
  }

  function Max(a: int, b: int): (r: int)
    ensures r >= a && r >= b && (r == a || r == b)
  {
    if a >= b then a else b
  }

  function MaxReal(a: real, b: real): (r: real)
    ensures r >= a && r >= b && (r == a || r == b)
  {
    if a >= b then a else b
  }

  /** JavaScript's `a % b` on integers: the magnitude is `|a| mod |b|` and the sign is
      that of `a` (a negative dividend gives a remainder in (-|b|, 0]). */
  function JsRem(a: int, b: int): (r: int)
    requires b != 0
    ensures a >= 0 ==> 0 <= r < Abs(b) && r == a % Abs(b)
    ensures a < 0 ==> -Abs(b) < r <= 0 && r == -((-a) % Abs(b))
  {
    if a >= 0 then a % Abs(b) else -((-a) % Abs(b))
  }

  function Abs(n: int): (r: int)
    ensures r >= 0 && (r == n || r == -n)
  {
    if n < 0 then -n else n
  }

  /** `Math.round`: the nearest integer, halves rounded toward +infinity. */
  function JsRound(x: real): (r: int)
    ensures x - 0.5 < r as real <= x + 0.5
  {
    (x + 0.5).Floor
  }

  function DigitChar(d: int): (c: char)
    requires 0 <= d <= 9
    ensures '0' <= c <= '9'
  {
    "0123456789"[d]
  }

  /** Decimal digits of a natural number, without leading zeros. */
  function NatToString(n: nat): (s: string)
    ensures |s| >= 1
    ensures forall i :: 0 <= i < |s| ==> '0' <= s[i] <= '9'
    ensures (s[0] == '0') <==> n == 0
    decreases n
  {
    if n < 10 then [DigitChar(n)] else NatToString(n / 10) + [DigitChar(n % 10)]
  }

  /** The text `${n}` for an integer `n`. */
  function IntToString(n: int): (s: string)
    ensures |s| >= 1
    ensures n >= 0 ==> s == NatToString(n)
    ensures n < 0 ==> s == "-" + NatToString(-n)
  {
    if n < 0 then "-" + NatToString(-n) else NatToString(n)
  }

  /** Reading the digits back gives the number: `NatToString` loses nothing. */
  function ParseNat(s: string): (n: nat)
    requires forall i :: 0 <= i < |s| ==> '0' <= s[i] <= '9'
  {
    if s == [] then 0 else ParseNat(s[..|s| - 1]) * 10 + ((s[|s| - 1] as int) - ('0' as int))
  }

  lemma {:induction false} ParseNatToString(n: nat)
    ensures ParseNat(NatToString(n)) == n
    decreases n
  {
    var s := NatToString(n);
    if n < 10 {
      assert s == [DigitChar(n)];
      assert s[..0] == [];
    } else {
      ParseNatToString(n / 10);
      assert s[..|s| - 1] == NatToString(n / 10);
    }
  }

  /** Quotient and remainder are determined by `n == k * d + s` with `0 <= s < d`. */
  lemma DivModUnique(n: int, d: int, k: int, s: int)
    requires d > 0 && 0 <= s < d && n == k * d + s
    ensures n / d == k && n % d == s
  {
    var q, r := n / d, n % d;
    assert n == q * d + r && 0 <= r < d;
    var a := q - k;
    assert a * d == s - r by {
      assert a * d == q * d - k * d;
    }
    if a >= 1 {
      MulAtLeast(a, d);
    } else if a <= -1 {
      MulAtLeast(-a, d);
    }
  }

  lemma MulAtLeast(a: int, d: int)
    requires a >= 1 && d > 0
    ensures a * d >= d
  {
    assert a * d == (a - 1) * d + d;
  }
}
