/**
 * The few JavaScript value semantics the server and the storefront rely on:
 * truthiness (`if (v)`, `!!v`, `v || d`), string prefixes, and the decimal
 * text that `"" + n` produces for an integral number.
 */
module JsValues {

  /**
   * A value as the server sees it after `JSON.parse` and one property read.
   * Numbers are integral; `Composite` stands for a plain object.
   */
  datatype Value = Undefined | Null | Bool(b: bool) | Number(n: int) | Text(s: string) | Composite

  /** JavaScript's ToBoolean. */
  predicate Truthy(v: Value)
  {
    match v
    case Undefined => false
    case Null => false
    case Bool(b) => b
    case Number(n) => n != 0
    case Text(s) => s != ""
    case Composite => true
  }

  /** `!!v`: the only Bool with the truthiness of `v`. */
  function DoubleNot(v: Value): (r: Value)
    ensures r.Bool? && (Truthy(r) <==> Truthy(v))
  {
    Bool(Truthy(v))
  }

  /** `a || b`: `a` when it is truthy, `b` otherwise. */
  function Or(a: Value, b: Value): Value
  {
    if Truthy(a) then a else b
  }

  /** `s.startsWith(prefix)`. */
  predicate StartsWith(s: string, prefix: string)
  {
    |prefix| <= |s| && s[..|prefix|] == prefix
  }

  predicate IsDigit(c: char)
  {
    '0' <= c <= '9'
  }

  function DigitChar(d: nat): (c: char)
    requires d < 10
    ensures IsDigit(c) && c as int - '0' as int == d
  {
    ('0' as int + d) as char
  }

  function DigitValue(c: char): nat
    requires IsDigit(c)
  {
    c as int - '0' as int
  }

  /** Decimal digits of a natural number, most significant first, no leading zero. */
  function NatText(n: nat): (s: string)
    ensures |s| >= 1
    ensures forall i :: 0 <= i < |s| ==> IsDigit(s[i])
    ensures s[0] == '0' ==> n == 0
    decreases n
  {
    if n < 10 then [DigitChar(n)] else NatText(n / 10) + [DigitChar(n % 10)]
  }

  /** `"" + n` for an integral JavaScript number (no exponent form). */
  function NumberText(n: int): string
  {
    if n < 0 then "-" + NatText(-n) else NatText(n)
  }

  /** Reads back a string of decimal digits. */
  function ParseNat(s: string): nat
    requires forall i :: 0 <= i < |s| ==> IsDigit(s[i])
    decreases |s|
  {
    if s == [] then 0 else ParseNat(s[..|s| - 1]) * 10 + DigitValue(s[|s| - 1])
  }

  /** Reads back optional minus sign and digits. */
  function ParseNumber(s: string): int
    requires |s| >= 1
    requires s[0] == '-' || IsDigit(s[0])
    requires forall i :: 1 <= i < |s| ==> IsDigit(s[i])
  {
    if s[0] == '-' then -(ParseNat(s[1..]) as int) else ParseNat(s)
  }

  lemma {:induction false} NatTextRoundTrip(n: nat)
    ensures ParseNat(NatText(n)) == n
    decreases n
  {
    if n >= 10 {
      var s := NatText(n);
      assert s[..|s| - 1] == NatText(n / 10);
      NatTextRoundTrip(n / 10);
    }
  }

  /** The price text can be read back to the price: the rendering loses nothing. */
  lemma NumberTextRoundTrip(n: int)
    ensures |NumberText(n)| >= 1
    ensures NumberText(n)[0] == '-' || IsDigit(NumberText(n)[0])
    ensures forall i :: 1 <= i < |NumberText(n)| ==> IsDigit(NumberText(n)[i])
    ensures ParseNumber(NumberText(n)) == n
  {
    if n < 0 {
      assert NumberText(n)[1..] == NatText(-n);
      NatTextRoundTrip(-n);
    } else {
      NatTextRoundTrip(n);
    }
  }
}
