/** The Luhn check over digit strings of any length (Annex B of ISO/IEC 7812-1). */
module Luhn {
  import opened Numerals

  function DigitValue(c: char): (d: nat)
    requires IsDigit(c)
    ensures d < 10
  {
    (c - '0') as nat
  }

  /** What a digit adds, by its distance from the right end: every second one is doubled
      and, when that has two digits, cast out by nine. */
  function Weighted(d: nat, index: nat): (w: nat)
    requires d < 10
    ensures w < 10
  {
    if index % 2 == 1 then (if 2 * d > 9 then 2 * d - 9 else 2 * d) else d
  }

  /** The total of a string whose last digit stands `index` places from the right end. */
  function Total(s: string, index: nat): nat
    requires AllDigits(s)
  {
    if s == "" then 0
    else Weighted(DigitValue(s[|s| - 1]), index) + Total(s[..|s| - 1], index + 1)
  }

  predicate Valid(s: string)
    requires AllDigits(s)
  {
    Total(s, 0) % 10 == 0
  }

  method LuhnValid(digits: string) returns (ok: bool)
    requires AllDigits(digits)
    ensures ok <==> Valid(digits)
  {
    var total, index := 0, 0;
    assert digits[..|digits|] == digits;
    while index < |digits|
      invariant 0 <= index <= |digits|
      invariant total + Total(digits[..|digits| - index], index) == Total(digits, 0)
    {
      var rest := digits[..|digits| - index];
      var digit := DigitValue(digits[|digits| - 1 - index]);
      if index % 2 == 1 {
        digit := digit * 2;
        if digit > 9 { digit := digit - 9; }
      }
      assert rest[..|rest| - 1] == digits[..|digits| - index - 1];
      total := total + digit;
      index := index + 1;
    }
    ok := total % 10 == 0;
  }

  /** Changing one digit moves the total by exactly the change of that digit's weight. */
  lemma {:induction false} TotalUpdate(s: string, i: nat, c: char, index: nat)
    requires AllDigits(s) && i < |s| && IsDigit(c)
    ensures AllDigits(s[i := c])
    ensures Total(s[i := c], index) + Weighted(DigitValue(s[i]), index + |s| - 1 - i)
         == Total(s, index) + Weighted(DigitValue(c), index + |s| - 1 - i)
  {
    var n := |s| - 1;
    if i < n {
      assert s[i := c][..n] == s[..n][i := c];
      TotalUpdate(s[..n], i, c, index + 1);
    } else {
      assert s[i := c][..n] == s[..n];
    }
  }

  lemma WeightedInjective(a: nat, b: nat, index: nat)
    requires a < 10 && b < 10 && Weighted(a, index) == Weighted(b, index)
    ensures a == b
  {
  }

  lemma SameResidue(t: nat, u: nat, a: nat, b: nat)
    requires a < 10 && b < 10 && t + a == u + b && t % 10 == u % 10
    ensures a == b
  {
    assert (t - u) % 10 == 0;
  }

  lemma SameDigit(a: char, b: char)
    requires IsDigit(a) && IsDigit(b) && DigitValue(a) == DigitValue(b)
    ensures a == b
  {
  }

  /** Changing any one digit of a valid string makes it invalid. */
  lemma SingleChangeDetected(s: string, i: nat, c: char)
    requires AllDigits(s) && Valid(s) && i < |s| && IsDigit(c) && c != s[i]
    ensures AllDigits(s[i := c]) && !Valid(s[i := c])
  {
    TotalUpdate(s, i, c, 0);
    if Valid(s[i := c]) {
      var index := |s| - 1 - i;
      SameResidue(Total(s[i := c], 0), Total(s, 0), Weighted(DigitValue(s[i]), index), Weighted(DigitValue(c), index));
      WeightedInjective(DigitValue(s[i]), DigitValue(c), index);
      SameDigit(s[i], c);
    }
  }

  function Swapped(s: string, i: nat): string
    requires i + 1 < |s|
  {
    s[i := s[i + 1]][i + 1 := s[i]]
  }

  lemma SwapWeights(a: nat, b: nat, index: nat)
    requires a < 10 && b < 10
    ensures (Weighted(a, index + 1) + Weighted(b, index)) % 10 == (Weighted(b, index + 1) + Weighted(a, index)) % 10
       <==> a == b || (a == 0 && b == 9) || (a == 9 && b == 0)
  {
    if index % 2 == 0 { SwapOdd(a, b); } else { SwapOdd(b, a); }
  }

  lemma SwapOdd(a: nat, b: nat)
    requires a < 10 && b < 10
    ensures (Weighted(a, 1) + b) % 10 == (Weighted(b, 1) + a) % 10 <==>
            a == b || (a == 0 && b == 9) || (a == 9 && b == 0)
  {
  }

  lemma SumResidue(t: nat, u: nat, a: nat, b: nat)
    requires t + a == u + b
    ensures t % 10 == u % 10 <==> a % 10 == b % 10
  {
  }

  /** Swapping two adjacent digits of a valid string is detected exactly when they differ
      and are not 0 and 9. */
  lemma AdjacentSwapDetected(s: string, i: nat)
    requires AllDigits(s) && Valid(s) && i + 1 < |s|
    ensures AllDigits(Swapped(s, i))
    ensures Valid(Swapped(s, i)) <==>
            s[i] == s[i + 1] || (s[i] == '0' && s[i + 1] == '9') || (s[i] == '9' && s[i + 1] == '0')
  {
    var a, b, index := DigitValue(s[i]), DigitValue(s[i + 1]), |s| - 2 - i;
    var once := s[i := s[i + 1]];
    TotalUpdate(s, i, s[i + 1], 0);
    TotalUpdate(once, i + 1, s[i], 0);
    SumResidue(Total(Swapped(s, i), 0), Total(s, 0),
               Weighted(a, index + 1) + Weighted(b, index), Weighted(b, index + 1) + Weighted(a, index));
    SwapWeights(a, b, index);
    if a == b { SameDigit(s[i], s[i + 1]); }
  }

  function CheckDigit(prefix: string): (c: char)
    requires AllDigits(prefix)
    ensures IsDigit(c)
  {
    Digit((10 - Total(prefix, 1) % 10) % 10)
  }

  /** Every prefix has exactly one check digit that completes it. */
  lemma OneCheckDigit(prefix: string, c: char)
    requires AllDigits(prefix) && IsDigit(c)
    ensures AllDigits(prefix + [c]) && (Valid(prefix + [c]) <==> c == CheckDigit(prefix))
  {
    var s := prefix + [c];
    assert s[..|s| - 1] == prefix;
    assert Total(s, 0) == DigitValue(c) + Total(prefix, 1);
    var t := Total(prefix, 1);
    Completes(DigitValue(c), t);
    assert DigitValue(CheckDigit(prefix)) == (10 - t % 10) % 10;
    if DigitValue(c) == DigitValue(CheckDigit(prefix)) { SameDigit(c, CheckDigit(prefix)); }
  }

  lemma Completes(d: nat, t: nat)
    requires d < 10
    ensures (d + t) % 10 == 0 <==> d == (10 - t % 10) % 10
  {
  }
}
