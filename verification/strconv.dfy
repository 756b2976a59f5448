/** The two `strconv` conversions `Init` uses, on a 64-bit `int`. */
module Strconv {
  import opened Outcomes

  const MinInt64: int := -0x8000_0000_0000_0000
  const MaxInt64: int := 0x7FFF_FFFF_FFFF_FFFF

  predicate IsDigit(c: char) {
    '0' <= c <= '9'
  }

  predicate AllDigits(s: string) {
    forall i :: 0 <= i < |s| ==> IsDigit(s[i])
  }

  /** The value of a string of decimal digits, read left to right. */
  function DigitsValue(s: string): nat
    requires AllDigits(s)
  {
    if |s| == 0 then 0 else DigitsValue(s[..|s| - 1]) * 10 + (s[|s| - 1] as int - '0' as int)
  }

  function DigitChar(d: nat): (c: char)
    requires d < 10
    ensures IsDigit(c) && c as int - '0' as int == d
  {
    ('0' as int + d) as char
  }

  /** The decimal digits of `n`, without leading zeros. */
  function Decimal(n: nat): (s: string)
    ensures |s| > 0 && AllDigits(s)
    ensures |s| > 1 ==> s[0] != '0'
    ensures DigitsValue(s) == n
  {
    if n < 10 then [DigitChar(n)]
    else
      var s := Decimal(n / 10) + [DigitChar(n % 10)];
      assert s[..|s| - 1] == Decimal(n / 10);
      s
  }

  /** `strconv.Itoa`: the shortest decimal form, `-` before a negative value. */
  function Itoa(n: int): (s: string)
    ensures n >= 0 ==> |s| > 0 && AllDigits(s) && DigitsValue(s) == n && (|s| > 1 ==> s[0] != '0')
    ensures n < 0 ==> |s| > 1 && s[0] == '-' && s[1] != '0'
    ensures n < 0 ==> AllDigits(s[1..]) && DigitsValue(s[1..]) == -n
  {
    if n < 0 then
      var s := "-" + Decimal(-n);
      assert s[1..] == Decimal(-n);
      s
    else Decimal(n)
  }

  /**
   * `strconv.Atoi`: an optional sign then one or more decimal digits, whose
   * value fits in 64 bits; anything else is an error.
   */
  function Atoi(s: string): (r: Option<int>)
    ensures r.Some? ==> MinInt64 <= r.value <= MaxInt64
    ensures |s| > 0 && AllDigits(s) ==>
      r == (if DigitsValue(s) <= MaxInt64 then Some(DigitsValue(s) as int) else None)
    ensures |s| > 1 && s[0] == '-' && AllDigits(s[1..]) ==>
      r == (if DigitsValue(s[1..]) <= -MinInt64 then Some(-(DigitsValue(s[1..]) as int)) else None)
    ensures |s| > 1 && s[0] == '+' && AllDigits(s[1..]) ==>
      r == (if DigitsValue(s[1..]) <= MaxInt64 then Some(DigitsValue(s[1..]) as int) else None)
    ensures r.Some? ==> |s| > 0 && (s[0] == '-' || s[0] == '+' || IsDigit(s[0]))
    ensures r.Some? ==> if s[0] == '-' || s[0] == '+' then |s| > 1 && AllDigits(s[1..]) else AllDigits(s)
    ensures |s| == 0 || (s[0] != '-' && s[0] != '+' && !IsDigit(s[0])) ==> r.None?
  {
    var signed := |s| > 0 && (s[0] == '-' || s[0] == '+');
    var digits := if signed then s[1..] else s;
    if |digits| == 0 || !AllDigits(digits) then None
    else
      var n: int := if signed && s[0] == '-' then -(DigitsValue(digits) as int) else DigitsValue(digits);
      if MinInt64 <= n <= MaxInt64 then Some(n) else None
  }

  /** `Atoi` reads back what `Itoa` writes, for every 64-bit value. */
  lemma AtoiItoa(n: int)
    requires MinInt64 <= n <= MaxInt64
    ensures Atoi(Itoa(n)) == Some(n)
  {
    var s := Itoa(n);
    if n < 0 {
      assert s[1..] == Decimal(-n);
    } else {
      assert IsDigit(s[0]);
    }
  }

  /**
   * Corollary of `AtoiItoa`: `Itoa(Atoi(s))` is the canonical spelling of
   * the same number, which is how `Init` stores a holding.
   */
  lemma ItoaCanonical(s: string)
    requires Atoi(s).Some?
    ensures Atoi(Itoa(Atoi(s).value)) == Atoi(s)
  {
    AtoiItoa(Atoi(s).value);
  }
}
