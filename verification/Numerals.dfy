/** Numbers written with digits. */
module Numerals {

  function DigitChar(d: nat): (c: char)
    requires d < 16
    ensures d < 10 ==> '0' <= c <= '9' && c as int == '0' as int + d
    ensures d >= 10 ==> 'a' <= c <= 'f' && c as int == 'a' as int + d - 10
  {
    if d < 10 then ('0' as int + d) as char else ('a' as int + d - 10) as char
  }

  lemma DivMod(n: nat, base: nat)
    requires base >= 2
    ensures n / base * base + n % base == n && 0 <= n % base < base && (n >= base ==> 0 <= n / base < n)
  {
  }

  predicate IsNumeral(s: string, base: nat)
  {
    s != "" && forall i :: 0 <= i < |s| ==> ('0' <= s[i] <= '9' || (base > 10 && 'a' <= s[i] <= 'f'))
  }

  /** The digits of `n`, without leading zeros. */
  function Numeral(n: nat, base: nat): (s: string)
    requires 2 <= base <= 16
    ensures IsNumeral(s, base)
    decreases n
  {
    DivMod(n, base);
    var q, d := n / base, n % base;
    if n < base then [DigitChar(n)] else Numeral(q, base) + [DigitChar(d)]
  }

  lemma NumeralIs(n: nat, base: nat)
    requires 2 <= base <= 16
    ensures 0 <= n / base && 0 <= n % base < base
    ensures Numeral(n, base) == if n < base then [DigitChar(n)] else Numeral(n / base, base) + [DigitChar(n % base)]
  {
    DivMod(n, base);
  }

  function Decimal(n: nat): (s: string)
    ensures s != "" && forall i :: 0 <= i < |s| ==> '0' <= s[i] <= '9'
  {
    Numeral(n, 10)
  }

  /** A number with its sign. */
  function IntText(n: int): string { if n < 0 then "-" + Decimal(-n) else Decimal(n) }

  function HexText(n: nat): string { "0x" + Numeral(n, 16) }
}
