/** The string operations of JavaScript that the modelled code relies on: decimal rendering
    of line numbers (template literals), `String.prototype.replace` with a global
    one-character pattern, and `toLowerCase` restricted to ASCII letters. */
module Strings {

  predicate IsDigit(c: char) { '0' <= c <= '9' }

  function DigitChar(d: nat): (c: char)
    requires d < 10
    ensures IsDigit(c) && c as int - '0' as int == d
  {
    ['0', '1', '2', '3', '4', '5', '6', '7', '8', '9'][d]
  }

  /** Decimal rendering of a natural number, as `${n}` produces it. */
  function NatToString(n: nat): (s: string)
    ensures |s| > 0
    ensures forall i :: 0 <= i < |s| ==> IsDigit(s[i])
  {
    if n < 10 then [DigitChar(n)] else NatToString(n / 10) + [DigitChar(n % 10)]
  }

  /** Reads back a string of decimal digits. */
  function ParseDecimal(s: string): nat
    requires forall i :: 0 <= i < |s| ==> IsDigit(s[i])
  {
    if s == [] then 0
    else
      assert IsDigit(s[|s| - 1]);
      ParseDecimal(s[..|s| - 1]) * 10 + (s[|s| - 1] as int - '0' as int)
  }

  /** Decimal rendering loses nothing: parsing it back gives the number. */
  lemma {:induction false} ParseNatToString(n: nat)
    ensures ParseDecimal(NatToString(n)) == n
  {
    var s := NatToString(n);
    if n >= 10 {
      ParseNatToString(n / 10);
      assert s[..|s| - 1] == NatToString(n / 10);
    }
  }

  lemma NatToStringInjective(m: nat, n: nat)
    requires NatToString(m) == NatToString(n)
    ensures m == n
  {
    ParseNatToString(m);
    ParseNatToString(n);
  }

  /** `s.replace(/c/g, rep)`: every occurrence of the character `c` replaced by `rep`. */
  function ReplaceAll(s: string, c: char, rep: string): (r: string)
    ensures c !in rep ==> c !in r
    ensures c !in s ==> r == s
  {
    if s == [] then []
    else (if s[0] == c then rep else [s[0]]) + ReplaceAll(s[1..], c, rep)
  }

  function LowerChar(c: char): char
  {
    if 'A' <= c <= 'Z' then (c as int + 32) as char else c
  }

  /** `toLowerCase` on the ASCII letters; every other character is kept. */
  function ToLower(s: string): (r: string)
    ensures |r| == |s|
    ensures forall i :: 0 <= i < |s| ==> r[i] == LowerChar(s[i])
  {
    if s == [] then [] else [LowerChar(s[0])] + ToLower(s[1..])
  }
}
