/** Unsigned decimal text: what `{n}` prints and what `str::parse::<u64>` reads back. */
module Decimal {

  const U64_LIMIT := 0x1_0000_0000_0000_0000

  predicate IsDigit(c: char) {
    '0' <= c <= '9'
  }

  predicate AllDigits(s: string) {
    forall i | 0 <= i < |s| :: IsDigit(s[i])
  }

  function DigitChar(d: nat): char
    requires d < 10
  {
    '0' + d as char
  }

  function DigitValue(c: char): nat
    requires IsDigit(c)
  {
    c as int - '0' as int
  }

  function Print(n: nat): string {
    if n < 10 then [DigitChar(n)] else Print(n / 10) + [DigitChar(n % 10)]
  }

  function Value(s: string): nat
    requires AllDigits(s)
  {
    if s == "" then 0 else 10 * Value(s[..|s| - 1]) + DigitValue(s[|s| - 1])
  }

  /** The text a number prints to: digits only, never empty, no redundant leading zero. */
  predicate Canonical(s: string) {
    |s| >= 1 && AllDigits(s) && (|s| > 1 ==> s[0] != '0')
  }

  lemma {:induction false} PrintThenValue(n: nat)
    ensures Canonical(Print(n)) && Value(Print(n)) == n
    ensures n > 0 ==> Print(n)[0] != '0'
  {
    if n < 10 {
      assert Print(n)[..0] == "";
    } else {
      PrintThenValue(n / 10);
      assert Print(n)[..|Print(n)| - 1] == Print(n / 10);
    }
  }

  lemma {:induction false} ValueThenPrint(s: string)
    requires Canonical(s)
    ensures Print(Value(s)) == s
    ensures |s| > 1 ==> Value(s) >= 10
    ensures s[0] != '0' ==> Value(s) > 0
  {
    var front := s[..|s| - 1];
    if |s| == 1 {
      assert front == "";
    } else {
      ValueThenPrint(front);
      assert s == front + [s[|s| - 1]];
    }
  }
}
