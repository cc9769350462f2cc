/** Decimal digits as text: what Number(...) reads and String(...) prints for non-negative integers. */
module Decimals {
  import opened Text

  predicate IsDigit(c: char) {
    '0' <= c <= '9'
  }

  /** The pattern \d+ over the whole text. */
  predicate IsNumeral(s: string) {
    s != [] && forall i :: 0 <= i < |s| ==> IsDigit(s[i])
  }

  function DigitValue(c: char): nat
    requires IsDigit(c)
  {
    c as int - '0' as int
  }

  function NumeralValue(s: string): nat
    requires forall i :: 0 <= i < |s| ==> IsDigit(s[i])
  {
    if s == [] then 0 else NumeralValue(s[..|s| - 1]) * 10 + DigitValue(s[|s| - 1])
  }

  function Digit(d: nat): char
    requires d < 10
  {
    (d + '0' as int) as char
  }

  function Print(n: nat): string {
    if n < 10 then [Digit(n)] else Print(n / 10) + [Digit(n % 10)]
  }

  /** Reading inverts printing. */
  lemma {:induction false} PrintReads(n: nat)
    ensures IsNumeral(Print(n)) && NumeralValue(Print(n)) == n
  {
    if n >= 10 {
      PrintReads(n / 10);
      assert Print(n)[..|Print(n)| - 1] == Print(n / 10);
    }
  }

  lemma TrimOfNumeralEnds(s: string)
    requires s != [] && !IsSpace(s[0]) && !IsSpace(s[|s| - 1])
    ensures Trim(s) == s
  {
  }

  /** replace(',', '.'): only the first comma. */
  function CommaToDot(s: string): string {
    if s == [] then [] else if s[0] == ',' then ['.'] + s[1..] else [s[0]] + CommaToDot(s[1..])
  }

  lemma {:induction false} CommaToDotBeyond(whole: string, rest: string)
    requires IsNumeral(whole) || whole == []
    ensures CommaToDot(whole + rest) == whole + CommaToDot(rest)
  {
    if whole == [] {
      assert whole + rest == rest;
    } else {
      CommaToDotBeyond(whole[1..], rest);
      assert (whole + rest)[1..] == whole[1..] + rest;
    }
  }

  /** Everything before the first dot, and what follows it if there is one. */
  function DotIndex(s: string): (i: nat)
    ensures i <= |s|
    ensures i < |s| ==> s[i] == '.'
    ensures forall j :: 0 <= j < i ==> s[j] != '.'
  {
    if s == [] || s[0] == '.' then 0 else 1 + DotIndex(s[1..])
  }

  lemma {:induction false} DotIndexAt(whole: string, rest: string)
    requires IsNumeral(whole) || whole == []
    requires rest == [] || rest[0] == '.'
    ensures DotIndex(whole + rest) == |whole|
  {
    if whole == [] {
      assert whole + rest == rest;
    } else {
      DotIndexAt(whole[1..], rest);
      assert (whole + rest)[1..] == whole[1..] + rest;
    }
  }
}
