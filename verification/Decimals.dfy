/** Whole numbers as text, and what is left of them after a trip through a double
    (diagnostics/metrics_parser.py reads every integer as `int(float(text))`). */
module Decimals {
  import opened Basics
  import opened Text

  // ---------------------------------------------------------------- text

  function Digit(d: int): char
    requires 0 <= d < 10
  {
    ('0' as int + d) as char
  }

  predicate IsDigit(c: char) { '0' <= c <= '9' }

  predicate AllDigits(s: string) { forall i :: 0 <= i < |s| ==> IsDigit(s[i]) }

  function Digits(n: nat): (s: string)
    ensures s != [] && AllDigits(s)
  {
    if n < 10 then [Digit(n)] else Digits(n / 10) + [Digit(n % 10)]
  }

  function Decimal(n: int): string { if n < 0 then "-" + Digits(-n) else Digits(n) }

  function ValueOf(s: string): nat
    requires AllDigits(s)
  {
    if s == [] then 0 else ValueOf(s[..|s| - 1]) * 10 + (s[|s| - 1] as int - '0' as int)
  }

  function ReadDecimal(s: string): Option<int> {
    if s != [] && AllDigits(s) then Some(ValueOf(s))
    else if |s| > 1 && s[0] == '-' && AllDigits(s[1..]) then Some(0 - ValueOf(s[1..]))
    else None
  }

  lemma {:induction false} DigitsReadBack(n: nat)
    ensures ValueOf(Digits(n)) == n
  {
    if n >= 10 {
      DigitsReadBack(n / 10);
      assert Digits(n)[..|Digits(n)| - 1] == Digits(n / 10);
    } else {
      assert Digits(n)[..0] == [];
    }
  }

  lemma DecimalReadsBack(n: int)
    ensures ReadDecimal(Decimal(n)) == Some(n)
    ensures Decimal(n) != [] && NoSpace(Decimal(n))
  {
    if n < 0 {
      DigitsReadBack(-n);
      SignedReadsBack(Digits(-n));
    } else {
      DigitsReadBack(n);
    }
  }

  lemma SignedReadsBack(digits: string)
    requires digits != [] && AllDigits(digits)
    ensures ReadDecimal("-" + digits) == Some(0 - ValueOf(digits)) && NoSpace("-" + digits)
  {
    var s := "-" + digits;
    assert s[1..] == digits && s[0] == '-' && !IsDigit(s[0]);
    assert forall i :: 1 <= i < |s| ==> s[i] == digits[i - 1];
  }

  // ---------------------------------------------------------------- doubles

  const EXACT: int := 0x20_0000_0000_0000

  /** Spacing of the doubles around n: the first power of two, from `unit` on, that leaves fewer
      than 2^53 steps. */
  function Spacing(n: nat, unit: nat): (r: nat)
    requires unit > 0
    ensures r > 0
    decreases n - EXACT * unit
  {
    if n < EXACT * unit then unit else Spacing(n, 2 * unit)
  }

  /** n to the nearest multiple of unit, halves to the even one. */
  function Nearest(n: nat, unit: nat): nat
    requires unit > 0
  {
    var q, r := n / unit, n % unit;
    if 2 * r < unit || (2 * r == unit && q % 2 == 0) then q * unit else (q + 1) * unit
  }

  function Double(n: int): int {
    if n < 0 then 0 - Nearest(-n, Spacing(-n, 1)) else Nearest(n, Spacing(n, 1))
  }

  /** A multiple of the spacing of doubles of its size. */
  predicate Representable(n: int) {
    if n < 0 then (-n) % Spacing(-n, 1) == 0 else n % Spacing(n, 1) == 0
  }

  lemma NearestExactWhenMultiple(n: nat, unit: nat)
    requires unit > 0
    ensures Nearest(n, unit) == n <==> n % unit == 0
  {
    var q, r := n / unit, n % unit;
    assert n == q * unit + r;
    assert (q + 1) * unit == q * unit + unit;
  }

  /** Exactly the representable integers survive. */
  lemma DoubleExactWhenRepresentable(n: int)
    ensures Double(n) == n <==> Representable(n)
  {
    if n < 0 {
      NearestExactWhenMultiple(-n, Spacing(-n, 1));
    } else {
      NearestExactWhenMultiple(n, Spacing(n, 1));
    }
  }

  /** Every integer up to 2^53 in size is representable. */
  lemma SmallIsRepresentable(n: int)
    requires -9007199254740992 <= n <= 9007199254740992
    ensures Representable(n) && Double(n) == n
  {
    DoubleExactWhenRepresentable(n);
    var m := if n < 0 then -n else n;
    if m == EXACT {
      assert Spacing(m, 1) == 2;
    } else {
      assert Spacing(m, 1) == 1;
    }
  }

  /** The first one that does not. */
  lemma FirstLostInteger()
    ensures Double(9007199254740993) == 9007199254740992
  {
    assert Spacing(EXACT + 1, 1) == 2;
  }
}
