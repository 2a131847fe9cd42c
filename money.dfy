/** Exact decimal money in the shape of shopspring/decimal: a value is coef · 10^exp.
    The representation is not normalised, so 10.5 and 10.500 are different
    representations (exponents -1 and -3) of the same value. */
module Money {

  datatype Decimal = Decimal(coef: int, exp: int)

  /** 10^n as a natural number. */
  function Pow10(n: nat): (r: nat)
    ensures r >= 1
  {
    if n == 0 then 1 else 10 * Pow10(n - 1)
  }

  /** The number a decimal stands for: coef · 10^exp, one power of ten at a time. */
  function Value(d: Decimal): real
    decreases if d.exp >= 0 then d.exp else -d.exp
  {
    if d.exp == 0 then d.coef as real
    else if d.exp > 0 then 10.0 * Value(Decimal(d.coef, d.exp - 1))
    else Value(Decimal(d.coef, d.exp + 1)) / 10.0
  }

  function Min(a: int, b: int): int { if a <= b then a else b }

  /** Moving one factor of ten from the exponent into the coefficient keeps the value. */
  lemma {:induction false} ShiftValue(c: int, e: int)
    ensures Value(Decimal(10 * c, e - 1)) == Value(Decimal(c, e))
    decreases if e >= 0 then e else -e
  {
    if e > 1 {
      ShiftValue(c, e - 1);
    } else if e < 0 {
      ShiftValue(c, e + 1);
    }
  }

  /** At a fixed exponent, the value is additive in the coefficient. */
  lemma {:induction false} AddValue(c1: int, c2: int, e: int)
    ensures Value(Decimal(c1 + c2, e)) == Value(Decimal(c1, e)) + Value(Decimal(c2, e))
    decreases if e >= 0 then e else -e
  {
    if e > 0 {
      AddValue(c1, c2, e - 1);
    } else if e < 0 {
      AddValue(c1, c2, e + 1);
    }
  }

  /** At a fixed exponent, the value orders exactly as the coefficients do. */
  lemma {:induction false} OrderValue(c1: int, c2: int, e: int)
    ensures c1 < c2 <==> Value(Decimal(c1, e)) < Value(Decimal(c2, e))
    ensures c1 == c2 <==> Value(Decimal(c1, e)) == Value(Decimal(c2, e))
    decreases if e >= 0 then e else -e
  {
    if e > 0 {
      OrderValue(c1, c2, e - 1);
    } else if e < 0 {
      OrderValue(c1, c2, e + 1);
    }
  }

  lemma ShiftFactor(c: int, p: int)
    ensures c * (10 * p) == 10 * (c * p)
  {
  }

  lemma {:induction false} RescaleValue(c: int, e: int, k: nat)
    ensures Value(Decimal(c * Pow10(k), e - k)) == Value(Decimal(c, e))
  {
    if k > 0 {
      RescaleValue(c, e, k - 1);
      var p := Pow10(k - 1);
      var c' := c * p;
      assert Pow10(k) == 10 * p;
      ShiftFactor(c, p);
      ShiftValue(c', e - (k - 1));
      assert e - (k - 1) - 1 == e - k;
    }
  }

  /** The same value written with the smaller exponent e (shopspring's rescale). */
  function Rescale(d: Decimal, e: int): (r: Decimal)
    requires e <= d.exp
    ensures r.exp == e && Value(r) == Value(d)
  {
    var k := d.exp - e;
    RescaleValue(d.coef, d.exp, k);
    Decimal(d.coef * Pow10(k), e)
  }

  /** Three-way comparison after rescaling both operands to the smaller exponent. */
  function Cmp(a: Decimal, b: Decimal): (r: int)
    ensures r == -1 <==> Value(a) < Value(b)
    ensures r == 0 <==> Value(a) == Value(b)
    ensures r == 1 <==> Value(a) > Value(b)
  {
    var m := Min(a.exp, b.exp);
    var ra, rb := Rescale(a, m), Rescale(b, m);
    OrderValue(ra.coef, rb.coef, m);
    if ra.coef < rb.coef then -1 else if ra.coef == rb.coef then 0 else 1
  }

  lemma {:induction false} ZeroValue(e: int)
    ensures Value(Decimal(0, e)) == 0.0
    decreases if e >= 0 then e else -e
  {
    if e > 0 {
      ZeroValue(e - 1);
    } else if e < 0 {
      ZeroValue(e + 1);
    }
  }

  function LessThan(a: Decimal, b: Decimal): (r: bool)
    ensures r <==> Value(a) < Value(b)
  {
    Cmp(a, b) == -1
  }

  function GreaterThan(a: Decimal, b: Decimal): (r: bool)
    ensures r <==> Value(a) > Value(b)
  {
    Cmp(a, b) == 1
  }

  function IsNegative(d: Decimal): (r: bool)
    ensures r <==> Value(d) < 0.0
  {
    OrderValue(d.coef, 0, d.exp);
    ZeroValue(d.exp);
    d.coef < 0
  }

  /** Exact sum; the result carries the smaller of the two exponents. */
  function Add(a: Decimal, b: Decimal): (r: Decimal)
    ensures Value(r) == Value(a) + Value(b)
    ensures r.exp == Min(a.exp, b.exp)
  {
    var m := Min(a.exp, b.exp);
    var ra, rb := Rescale(a, m), Rescale(b, m);
    AddValue(ra.coef, rb.coef, m);
    Decimal(ra.coef + rb.coef, m)
  }

  /** Exact difference; the result carries the smaller of the two exponents. */
  function Sub(a: Decimal, b: Decimal): (r: Decimal)
    ensures Value(r) == Value(a) - Value(b)
    ensures r.exp == Min(a.exp, b.exp)
  {
    var m := Min(a.exp, b.exp);
    var ra, rb := Rescale(a, m), Rescale(b, m);
    AddValue(ra.coef - rb.coef, rb.coef, m);
    Decimal(ra.coef - rb.coef, m)
  }

  function NewFromInt(n: int): (r: Decimal)
    ensures Value(r) == n as real && r.exp == 0
  {
    Decimal(n, 0)
  }

  /** Decimal digits of a natural number, as Decimal.String prints an integral value. */
  function NatString(n: nat): (s: string)
    ensures |s| > 0
    ensures forall i :: 0 <= i < |s| ==> '0' <= s[i] <= '9'
    // canonical: no leading zero, except for zero itself
    ensures s[0] != '0' || n == 0
    ensures n == 0 ==> s == "0"
    decreases n
  {
    var d := [(('0' as int) + n % 10) as char];
    if n < 10 then d else NatString(n / 10) + d
  }

  /** The number a string of decimal digits denotes. */
  function DigitsValue(s: string): int
  {
    if s == [] then 0 else 10 * DigitsValue(s[..|s| - 1]) + (s[|s| - 1] as int - '0' as int)
  }

  lemma {:induction false} NatStringRoundTrip(n: nat)
    ensures DigitsValue(NatString(n)) == n
  {
    var d := [(('0' as int) + n % 10) as char];
    if n >= 10 {
      NatStringRoundTrip(n / 10);
      var s := NatString(n / 10) + d;
      assert s[..|s| - 1] == NatString(n / 10);
    }
  }

  /** String of an integral decimal (exponent 0), as shopspring prints it. */
  function IntString(n: int): (s: string)
    ensures |s| > 0
    // a natural number is spelled by its digits alone
    ensures n >= 0 ==> (forall i :: 0 <= i < |s| ==> '0' <= s[i] <= '9') && DigitsValue(s) == n
                       && (s[0] != '0' || n == 0) && (n == 0 ==> s == "0")
    // a negative one by a minus sign followed by the digits of its magnitude
    ensures n < 0 ==> s[0] == '-' && (forall i :: 1 <= i < |s| ==> '0' <= s[i] <= '9')
                      && DigitsValue(s[1..]) == -n && |s| > 1 && s[1] != '0'
  {
    if n < 0 then
      NatStringRoundTrip(-n);
      assert ("-" + NatString(-n))[1..] == NatString(-n);
      "-" + NatString(-n)
    else
      NatStringRoundTrip(n);
      NatString(n)
  }
}
