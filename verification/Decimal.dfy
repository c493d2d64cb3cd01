/** Decimal text: the parts of `strconv` and `fmt` that the modelled code calls. */
module Decimal {
  import opened GoInt
  import opened Wrappers

  predicate IsDigit(c: char) {
    '0' <= c <= '9'
  }

  ghost predicate AllDigits(s: string) {
    forall i :: 0 <= i < |s| ==> IsDigit(s[i])
  }

  predicate DigitsOnly(s: string)
    ensures DigitsOnly(s) == AllDigits(s)
  {
    forall i :: 0 <= i < |s| ==> IsDigit(s[i])
  }

  /** The number the first `n` digits denote. */
  function ValueTo(s: string, n: nat): nat
    requires AllDigits(s) && n <= |s|
  {
    if n == 0 then 0 else 10 * ValueTo(s, n - 1) + (s[n - 1] as int - '0' as int)
  }

  /** The number a string of digits denotes. */
  function Value(s: string): nat
    requires AllDigits(s)
  {
    ValueTo(s, |s|)
  }

  /** `%d` of a non-negative number. */
  function FormatNat(n: nat): (s: string)
    ensures |s| > 0 && AllDigits(s)
  {
    var last := ('0' as int + n % 10) as char;
    if n < 10 then [last] else FormatNat(n / 10) + [last]
  }

  /** `%d` and `strconv.Itoa`. */
  function FormatInt(n: int): string {
    if n < 0 then "-" + FormatNat(-n) else FormatNat(n)
  }

  /** `strconv.ParseInt(s, 10, 64)` on unsigned text. */
  function ParseDigits(s: string): Option<int> {
    if s != "" && DigitsOnly(s) && Value(s) <= MAX_INT64 then Some(Value(s)) else None
  }

  /** `strconv.Atoi`: an optional sign, digits, and a 64-bit range check. */
  function Atoi(s: string): Option<int> {
    var signed := s != "" && (s[0] == '-' || s[0] == '+');
    var digits := if signed then s[1..] else s;
    if digits == "" || !DigitsOnly(digits) then None
    else
      var v: int := if signed && s[0] == '-' then -(Value(digits) as int) else Value(digits);
      if IsInt64(v) then Some(v) else None
  }

  lemma {:induction false} ValueToPrefix(s: string, t: string, n: nat)
    requires AllDigits(s) && AllDigits(t) && n <= |s| <= |t| && s == t[..|s|]
    ensures ValueTo(s, n) == ValueTo(t, n)
  {
    if n > 0 {
      ValueToPrefix(s, t, n - 1);
      assert s[n - 1] == t[n - 1];
    }
  }

  lemma {:induction false} ValueFormatNat(n: nat)
    ensures Value(FormatNat(n)) == n
  {
    if n >= 10 {
      ValueFormatNat(n / 10);
      ValueToPrefix(FormatNat(n / 10), FormatNat(n), |FormatNat(n / 10)|);
    } else {
      assert ValueTo(FormatNat(n), 0) == 0;
    }
  }

  /** No number but zero is printed with a leading zero. */
  lemma {:induction false} FormatNatLeads(n: nat)
    ensures FormatNat(n)[0] == '0' <==> n == 0
  {
    if n >= 10 {
      FormatNatLeads(n / 10);
    }
  }

  /** Reading back a printed 64-bit integer. */
  lemma AtoiFormatInt(n: int)
    requires IsInt64(n)
    ensures Atoi(FormatInt(n)) == Some(n)
  {
    if n < 0 {
      ValueFormatNat(-n);
      assert FormatInt(n)[1..] == FormatNat(-n);
    } else {
      ValueFormatNat(n);
      assert IsDigit(FormatInt(n)[0]);
    }
  }
}
