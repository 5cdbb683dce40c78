/**
 Decimal numbers without leading zeros, as the firmware prints and reads them.
 */
module Decimal {

  predicate IsDigit(c: char) { '0' <= c <= '9' }

  function DigitOf(d: nat): char
    requires d < 10
  {
    "0123456789"[d]
  }

  function ValueOf(c: char): nat
    requires IsDigit(c)
  {
    c as nat - '0' as nat
  }

  /** Decimal, without leading zeros. */
  function PrintNat(n: nat): string {
    if n < 10 then [DigitOf(n)] else PrintNat(n / 10) + [DigitOf(n % 10)]
  }

  predicate AllDigits(text: string) { forall i :: 0 <= i < |text| ==> IsDigit(text[i]) }

  function NumberOf(text: string): nat
    requires AllDigits(text)
  {
    if text == "" then 0 else NumberOf(text[..|text| - 1]) * 10 + ValueOf(text[|text| - 1])
  }

  lemma {:induction false} PrintNatShape(n: nat)
    ensures var t := PrintNat(n);
      && t != "" && AllDigits(t) && NumberOf(t) == n
      && (|t| > 1 ==> t[0] != '0') && (n > 0 ==> t[0] != '0') && (n <= 9999 <==> |t| <= 4)
      && (n <= 999 <==> |t| <= 3)
  {
    if n >= 10 {
      PrintNatShape(n / 10);
      PrintedLength(n);
    }
  }

  lemma PrintedLength(n: nat)
    ensures n <= 9 <==> |PrintNat(n)| <= 1
    ensures n <= 99 <==> |PrintNat(n)| <= 2
    ensures n <= 999 <==> |PrintNat(n)| <= 3
    ensures n <= 9999 <==> |PrintNat(n)| <= 4
  {
    if n >= 10 { PrintedLength(n / 10); }
  }

  lemma DigitPrinted(c: char)
    requires IsDigit(c)
    ensures ValueOf(c) < 10 && DigitOf(ValueOf(c)) == c && (ValueOf(c) == 0 <==> c == '0')
  {
  }

  lemma PrintNextDigit(v: nat, d: nat)
    requires v > 0 && d < 10
    ensures PrintNat(v * 10 + d) == PrintNat(v) + [DigitOf(d)]
  {
  }

  lemma {:induction false} DigitsArePrinted(text: string)
    requires text != "" && AllDigits(text) && (|text| > 1 ==> text[0] != '0')
    ensures PrintNat(NumberOf(text)) == text
    ensures text[0] != '0' ==> NumberOf(text) > 0
  {
    hide PrintNat, ValueOf, DigitOf;
    var front, last := text[..|text| - 1], text[|text| - 1];
    assert text == front + [last];
    DigitPrinted(last);
    if front == "" {
      assert NumberOf(front) == 0;
      OneDigit(last);
    } else {
      DigitsArePrinted(front);
      PrintNextDigit(NumberOf(front), ValueOf(last));
    }
  }

  lemma OneDigit(c: char)
    requires IsDigit(c)
    ensures PrintNat(ValueOf(c)) == [c]
  {
  }

  lemma {:induction false} NumberGrows(text: string, k: nat)
    requires AllDigits(text) && k <= |text|
    ensures NumberOf(text[..k]) <= NumberOf(text)
  {
    if k == |text| {
      assert text[..k] == text;
    } else {
      NumberGrows(text[..|text| - 1], k);
      assert text[..|text| - 1][..k] == text[..k];
    }
  }

  lemma NatNotPrinted(a: nat, b: nat)
    ensures PrintNat(a) == PrintNat(b) ==> a == b
  {
    PrintNatShape(a);
    PrintNatShape(b);
  }
}
