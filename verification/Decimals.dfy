/** Decimal numbers as text. */
module Decimals {
  function Digit(d: nat): char
    requires d < 10
  {
    '0' + d as char
  }

  predicate IsDigit(c: char) {
    '0' <= c <= '9'
  }

  function Decimal(n: nat): (r: string)
    ensures |r| > 0
  {
    if n < 10 then [Digit(n)] else Decimal(n / 10) + [Digit(n % 10)]
  }

  /** The digits a scan consumes. */
  function DigitCount(s: string): (r: nat)
    ensures r <= |s|
  {
    if s == [] || !IsDigit(s[0]) then 0 else 1 + DigitCount(s[1..])
  }

  function NumberOf(digits: string): nat
    requires DigitCount(digits) == |digits|
  {
    if digits == [] then 0
    else
      AllDigits(digits);
      NumberOf(digits[..|digits| - 1]) * 10 + (digits[|digits| - 1] as int - '0' as int)
  }

  /** The number a scan of the leading digits yields. */
  function Number(s: string): nat {
    Leading(s, DigitCount(s));
    NumberOf(s[..DigitCount(s)])
  }

  lemma {:induction false} AllDigits(s: string)
    ensures DigitCount(s) == |s| <==> forall i :: 0 <= i < |s| ==> IsDigit(s[i])
    ensures DigitCount(s) == |s| ==> forall k :: 0 <= k <= |s| ==> DigitCount(s[..k]) == k
  {
    Digits(s);
    if DigitCount(s) == |s| {
      forall k | 0 <= k <= |s| ensures DigitCount(s[..k]) == k {
        Digits(s[..k]);
      }
    }
  }

  lemma {:induction false} Digits(s: string)
    ensures DigitCount(s) == |s| <==> forall i :: 0 <= i < |s| ==> IsDigit(s[i])
  {
    if s != [] {
      Digits(s[1..]);
      assert forall i :: 1 <= i < |s| ==> s[i] == s[1..][i - 1];
      if DigitCount(s) == |s| {
        forall i | 0 <= i < |s| ensures IsDigit(s[i]) {
          if i > 0 {
            assert s[i] == s[1..][i - 1];
          }
        }
      }
    }
  }

  lemma {:induction false} Leading(s: string, k: nat)
    requires k <= DigitCount(s)
    ensures DigitCount(s[..k]) == k
  {
    if k > 0 {
      Leading(s[1..], k - 1);
      assert s[..k][1..] == s[1..][..k - 1];
    }
  }

  lemma {:induction false} DecimalDigits(n: nat)
    ensures forall i :: 0 <= i < |Decimal(n)| ==> IsDigit(Decimal(n)[i])
  {
    if n >= 10 {
      DecimalDigits(n / 10);
    }
  }

  /** Scanning a printed number gives the number back. */
  lemma {:induction false} NumberRoundTrip(n: nat)
    ensures DigitCount(Decimal(n)) == |Decimal(n)| && Number(Decimal(n)) == n
  {
    DecimalDigits(n);
    AllDigits(Decimal(n));
    assert Decimal(n)[..|Decimal(n)|] == Decimal(n);
    if n >= 10 {
      NumberRoundTrip(n / 10);
      var q := Decimal(n / 10);
      assert q[..|q|] == q;
      assert Decimal(n)[..|q|] == q;
    } else {
      assert NumberOf([]) == 0;
      assert [Digit(n)][..0] == [];
    }
  }
}
