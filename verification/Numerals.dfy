/** Base-36 and hexadecimal numerals as the token writes them. */
module Numerals {
  import opened Positional

  function DigitChar(d: int): (c: char)
    requires 0 <= d < 36
    ensures c != '_'
  {
    if d < 10 then ('0' as int + d) as char else ('a' as int + d - 10) as char
  }

  function DigitOf(c: char): (d: int)
    ensures -1 <= d < 36
  {
    if '0' <= c <= '9' then c as int - '0' as int
    else if 'a' <= c <= 'z' then c as int - 'a' as int + 10
    else -1
  }

  /** Both directions of the table of digits. */
  lemma DigitTable(d: int, c: char)
    requires 0 <= d < 36
    ensures DigitChar(d) == "0123456789abcdefghijklmnopqrstuvwxyz"[d]
    ensures DigitOf(c) == d <==> c == DigitChar(d)
  {
  }

  predicate IsNumeral(s: string, b: int) {
    s != "" && forall i :: 0 <= i < |s| ==> 0 <= DigitOf(s[i]) < b
  }

  function DigitsOf(s: string): seq<int> {
    seq(|s|, i requires 0 <= i < |s| => DigitOf(s[i]))
  }

  function NumeralValue(s: string, b: int): int {
    Num(DigitsOf(s), b)
  }

  lemma NumeralSnoc(s: string, d: int, b: int)
    requires 0 <= d < b <= 36 && (s == "" || IsNumeral(s, b))
    ensures IsNumeral(s + [DigitChar(d)], b)
    ensures NumeralValue(s + [DigitChar(d)], b) == NumeralValue(s, b) * b + d
  {
    var c := DigitChar(d);
    assert DigitOf(c) == d;
    assert DigitsOf(s + [c]) == DigitsOf(s) + [d];
    NumSnoc(DigitsOf(s), d, b);
    forall i | 0 <= i < |s + [c]| ensures 0 <= DigitOf((s + [c])[i]) < b {
      if i < |s| { assert (s + [c])[i] == s[i]; }
    }
  }

  /** The shortest base-36 numeral of a number. */
  function B36(n: nat): string {
    if n < 36 then [DigitChar(n)] else B36(n / 36) + [DigitChar(n % 36)]
  }

  lemma {:induction false} B36Value(n: nat)
    ensures IsNumeral(B36(n), 36) && NumeralValue(B36(n), 36) == n
    ensures n > 0 ==> B36(n)[0] != '0'
  {
    if n < 36 {
      NumeralSnoc("", n, 36);
      assert "" + [DigitChar(n)] == [DigitChar(n)];
    } else {
      B36Value(n / 36);
      NumeralSnoc(B36(n / 36), n % 36, 36);
    }
  }

  function Reversed(s: string): (r: string)
    ensures |r| == |s|
  {
    if s == "" then "" else Reversed(s[1..]) + [s[0]]
  }

  lemma {:induction false} ReversedSnoc(s: string, c: char)
    ensures Reversed(s + [c]) == [c] + Reversed(s)
  {
    if s == "" {
      assert Reversed([c]) == Reversed([c][1..]) + [c];
    } else {
      assert (s + [c])[1..] == s[1..] + [c];
      ReversedSnoc(s[1..], c);
    }
  }

  lemma LastDigit(n: nat)
    ensures n < 36 ==> n / 36 == 0 && B36(n) == "" + [DigitChar(n % 36)]
    ensures n >= 36 ==> n / 36 != 0 && B36(n) == B36(n / 36) + [DigitChar(n % 36)]
  {
    hide DigitChar;
  }

  lemma DigitMoves(n: nat, digits: string)
    requires n > 0
    ensures (if n / 36 == 0 then "" else B36(n / 36)) + Reversed(digits + [DigitChar(n % 36)]) == B36(n) + Reversed(digits)
  {
    hide Reversed, DigitChar, B36;
    LastDigit(n);
    ReversedSnoc(digits, DigitChar(n % 36));
    MoveAcross(if n / 36 == 0 then "" else B36(n / 36), DigitChar(n % 36), Reversed(digits));
  }

  lemma MoveAcross(a: string, c: char, b: string)
    ensures a + ([c] + b) == (a + [c]) + b
  {
  }

  /** Digits come out lowest first and are reversed at the end. */
  method ExpToB36(exp: nat) returns (s: string)
    ensures s == B36(exp)
  {
    if exp == 0 { return "0"; }
    var digits := "";
    var n := exp;
    while n != 0
      invariant (if n == 0 then "" else B36(n)) + Reversed(digits) == B36(exp)
    {
      DigitMoves(n, digits);
      digits := digits + [DigitChar(n % 36)];
      n := n / 36;
    }
    return Reversed(digits);
  }

  /** `f"{n:02x}"` of a number below 256. */
  function Hex2(n: nat): string
    requires n < 256
  {
    [DigitChar(n / 16), DigitChar(n % 16)]
  }

  lemma Hex2Value(n: nat)
    requires n < 256
    ensures IsNumeral(Hex2(n), 16) && NumeralValue(Hex2(n), 16) == n
  {
    NumeralSnoc("", n / 16, 16);
    NumeralSnoc([DigitChar(n / 16)], n % 16, 16);
    assert "" + [DigitChar(n / 16)] == [DigitChar(n / 16)];
    assert [DigitChar(n / 16)] + [DigitChar(n % 16)] == Hex2(n);
    assert DigitsOf("") == [];
  }

  lemma NumeralIsPlain(s: string, b: int)
    requires IsNumeral(s, b)
    ensures '_' !in s
  {
    assert DigitOf('_') == -1;
  }
}
