/** strconv.Itoa and strconv.Atoi on non-negative and signed decimal text. */
module Decimal {
  import opened Basics

  predicate IsDigit(c: char) {
    '0' <= c <= '9'
  }

  function Digit(d: nat): (c: char)
    requires d < 10
    ensures IsDigit(c)
  {
    '0' + d as char
  }

  /** strconv.Itoa for n >= 0. */
  function Itoa(n: nat): string {
    if n < 10 then [Digit(n)] else Itoa(n / 10) + [Digit(n % 10)]
  }

  predicate AllDigits(s: string) {
    forall i :: 0 <= i < |s| ==> IsDigit(s[i])
  }

  function Value(s: string): nat
    requires AllDigits(s)
  {
    if s == [] then 0 else 10 * Value(s[..|s| - 1]) + (s[|s| - 1] - '0') as nat
  }

  /** strconv.Atoi: an optional sign and at least one digit, in int64 range. */
  function Atoi(s: string): Option<int> {
    var signed := s != [] && (s[0] == '-' || s[0] == '+');
    var digits := if signed then s[1..] else s;
    if digits == [] || !AllDigits(digits) then None
    else
      var n: int := Value(digits);
      var v := if signed && s[0] == '-' then -n else n;
      if -TWO_63 <= v < TWO_63 then Some(v) else None
  }

  lemma {:induction false} ValueOfItoa(n: nat)
    ensures AllDigits(Itoa(n)) && Itoa(n) != [] && Value(Itoa(n)) == n
  {
    if n < 10 {
      assert Value([]) == 0;
      assert Itoa(n)[..0] == [];
    } else {
      ValueOfItoa(n / 10);
      assert Itoa(n)[..|Itoa(n)| - 1] == Itoa(n / 10);
    }
  }

  /** Printing and parsing an int64 index is the identity. */
  lemma AtoiItoa(n: nat)
    requires n < TWO_63
    ensures Atoi(Itoa(n)) == Some(n)
  {
    ValueOfItoa(n);
  }

  /** Digits with or without a sign are accepted, unless their value is outside int64. */
  lemma AtoiSigned(digits: string)
    requires digits != "" && AllDigits(digits)
    ensures Atoi(digits) == if Value(digits) < TWO_63 then Some(Value(digits)) else None
    ensures Atoi("+" + digits) == if Value(digits) < TWO_63 then Some(Value(digits)) else None
    ensures Atoi("-" + digits) == if Value(digits) <= TWO_63 then Some(-(Value(digits) as int)) else None
  {
    hide Value;
    assert ("+" + digits)[1..] == digits && ("-" + digits)[1..] == digits;
    assert IsDigit(digits[0]);
  }

  /** Anything but digits after an optional sign is refused, and so is a sign alone. */
  lemma AtoiRefuses(s: string, i: nat)
    requires i < |s| && !IsDigit(s[i]) && (i > 0 || (s[0] != '+' && s[0] != '-') || |s| == 1)
    ensures Atoi(s).None?
  {
    if s[0] == '+' || s[0] == '-' {
      assert i > 0 ==> s[1..][i - 1] == s[i];
    }
  }

  /** Different indices print differently. */
  lemma ItoaInjective(m: nat, n: nat)
    requires Itoa(m) == Itoa(n)
    ensures m == n
  {
    ValueOfItoa(m);
    ValueOfItoa(n);
  }

  ghost function Pow10(k: nat): nat {
    if k == 0 then 1 else 10 * Pow10(k - 1)
  }

  lemma {:induction false} ItoaLength(n: nat, k: nat)
    requires 0 < k && n < Pow10(k)
    ensures 1 <= |Itoa(n)| <= k
    decreases k
  {
    if n >= 10 {
      ItoaLength(n / 10, k - 1);
    }
  }

  /** Every non-negative Go int prints as 1 to 19 digits. */
  lemma IndexLength(n: nat)
    requires n < TWO_63
    ensures 1 <= |Itoa(n)| <= 19 && AllDigits(Itoa(n))
  {
    assert Pow10(5) == 100000;
    assert Pow10(10) == 10000000000;
    assert Pow10(15) == 1000000000000000;
    assert Pow10(19) == 10000000000000000000;
    ItoaLength(n, 19);
    ValueOfItoa(n);
  }
}
