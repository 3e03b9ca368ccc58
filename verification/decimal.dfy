/** Decimal formatting of integers as Go's strconv.Itoa and fmt's "%d" and "%+d" produce it. */
module Decimal {
  import opened Outcomes
  import opened ByteStrings

  function Digit(d: nat): byte
    requires d < 10
  {
    ZERO + d
  }

  /** The decimal digits of n, most significant first, without leading zeros. */
  function NatDigits(n: nat): (r: Bytes)
    ensures 1 <= |r|
    ensures AllDigits(r)
    ensures r[0] == ZERO ==> n == 0
    decreases n
  {
    if n < 10 then [Digit(n)] else NatDigits(n / 10) + [Digit(n % 10)]
  }

  /** The number a string of decimal digits denotes. */
  function DigitsValue(s: Bytes): nat
    requires AllDigits(s)
  {
    if s == [] then 0 else 10 * DigitsValue(s[..|s| - 1]) + (s[|s| - 1] - ZERO)
  }

  lemma {:induction false} NatDigitsRoundTrip(n: nat)
    ensures DigitsValue(NatDigits(n)) == n
  {
    if n >= 10 {
      var r := NatDigits(n);
      assert r[..|r| - 1] == NatDigits(n / 10);
      NatDigitsRoundTrip(n / 10);
    }
  }

  /** strconv.Itoa and "%d": a '-' before the digits of a negative value. */
  function Itoa(n: int): (r: Bytes)
    ensures NoNewline(r)
    ensures |r| > 0 && (r[0] == MINUS || IsDigit(r[0]))
  {
    if n < 0 then [MINUS] + NatDigits(-n) else NatDigits(n)
  }

  /** "%+d": like "%d", but a non-negative value gets a '+'. */
  function SignedItoa(n: int): (r: Bytes)
    ensures NoNewline(r)
    ensures |r| > 1 && (r[0] == MINUS || r[0] == PLUS)
  {
    if n < 0 then Itoa(n) else [PLUS] + Itoa(n)
  }

  /** Reads an optionally signed decimal integer; the reference the two formatters are checked against. */
  function ParseInt(s: Bytes): Option<int> {
    if |s| > 1 && s[0] == MINUS && AllDigits(s[1..]) then Some(0 - DigitsValue(s[1..]) as int)
    else if |s| > 1 && s[0] == PLUS && AllDigits(s[1..]) then Some(DigitsValue(s[1..]))
    else if |s| > 0 && AllDigits(s) then Some(DigitsValue(s))
    else None
  }

  lemma ItoaRoundTrip(n: int)
    ensures ParseInt(Itoa(n)) == Some(n)
    ensures ParseInt(SignedItoa(n)) == Some(n)
  {
    NatDigitsRoundTrip(if n < 0 then -n else n);
    if n < 0 {
      assert Itoa(n)[1..] == NatDigits(-n);
    } else {
      assert SignedItoa(n)[1..] == NatDigits(n);
    }
  }
}
