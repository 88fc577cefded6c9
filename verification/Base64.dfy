/** The base64url text of a byte string, without padding, and back (section 5 of RFC 4648). */
module Base64 {
  import opened Options
  import opened Positional

  const UPPER := "ABCDEFGHIJKLMNOPQRSTUVWXYZ"
  const LOWER := "abcdefghijklmnopqrstuvwxyz"
  const DIGITS := "0123456789"

  function CharOf(v: int): char
    requires 0 <= v < 64
  {
    if v < 26 then ('A' as int + v) as char
    else if v < 52 then ('a' as int + v - 26) as char
    else if v < 62 then ('0' as int + v - 52) as char
    else if v == 62 then '-'
    else '_'
  }

  /** The standard alphabet spells the last two values otherwise. */
  function StandardCharOf(v: int): char
    requires 0 <= v < 64
  {
    if v == 62 then '+' else if v == 63 then '/' else CharOf(v)
  }

  lemma Alphabets(v: int)
    requires 0 <= v < 64
    ensures CharOf(v) == (UPPER + LOWER + DIGITS + "-_")[v]
    ensures StandardCharOf(v) == (UPPER + LOWER + DIGITS + "+/")[v]
  {
    assert |UPPER| == 26 && |LOWER| == 26 && |DIGITS| == 10;
  }

  /** The value of a character of either alphabet. */
  function ValueOf(c: char): (v: int)
    ensures -1 <= v < 64
  {
    if 'A' <= c <= 'Z' then c as int - 'A' as int
    else if 'a' <= c <= 'z' then c as int - 'a' as int + 26
    else if '0' <= c <= '9' then c as int - '0' as int + 52
    else if c == '-' || c == '+' then 62
    else if c == '_' || c == '/' then 63
    else -1
  }

  lemma ValueOfIff(c: char, v: int)
    requires 0 <= v < 64
    ensures ValueOf(c) == v <==> c == CharOf(v) || c == StandardCharOf(v)
  {
  }

  /** How many characters n bytes take, and what their number is multiplied by to fill the last one. */
  function Chars(n: nat): nat {
    (4 * n + 2) / 3
  }

  function Slack(n: nat): nat {
    if n % 3 == 0 then 1 else if n % 3 == 1 then 16 else 4
  }

  /** Four characters carry three bytes, and the slack fills the last character. */
  lemma {:induction false} Capacity(n: nat)
    ensures Pow(256, n) * Slack(n) == Pow(64, Chars(n))
  {
    if n < 3 {
      assert Pow(256, 1) == Pow(256, 0) * 256 && Pow(256, 2) == Pow(256, 1) * 256;
      assert Pow(64, 1) == Pow(64, 0) * 64 && Pow(64, 2) == Pow(64, 1) * 64 && Pow(64, 3) == Pow(64, 2) * 64;
    } else {
      Capacity(n - 3);
      var k := Chars(n - 3);
      assert Chars(n) == k + 4 && Slack(n) == Slack(n - 3);
      assert Pow(64, k + 2) == Pow(64, k) * 4096;
      assert Pow(64, k + 4) == Pow(64, k + 2) * 4096;
      assert Pow(256, n - 1) == Pow(256, n - 3) * 65536;
      assert Pow(256, n) == Pow(256, n - 3) * 0x100_0000;
      assert Pow(64, k + 4) == Pow(64, k) * 0x100_0000;
      Regroup(Pow(256, n - 3), Slack(n), 0x100_0000);
    }
  }

  lemma Regroup(a: int, b: int, c: int)
    ensures (a * c) * b == (a * b) * c
  {
  }

  function Spelled(ds: seq<int>): (s: string)
    requires AreDigits(ds, 64)
    ensures |s| == |ds|
  {
    seq(|ds|, i requires 0 <= i < |ds| => CharOf(ds[i]))
  }

  function Text(bytes: seq<int>): (s: string)
    requires AreDigits(bytes, 256)
    ensures |s| == Chars(|bytes|)
  {
    NumBounds(bytes, 256);
    MulMonotone(0, Num(bytes, 256), Slack(|bytes|));
    Spelled(Digits(Num(bytes, 256) * Slack(|bytes|), 64, Chars(|bytes|)))
  }

  predicate InAlphabet(s: string) {
    forall i :: 0 <= i < |s| ==> ValueOf(s[i]) >= 0
  }

  function Values(s: string): (ds: seq<int>)
    requires InAlphabet(s)
    ensures |ds| == |s| && AreDigits(ds, 64)
  {
    seq(|s|, i requires 0 <= i < |s| => ValueOf(s[i]))
  }

  /** The whole bytes a text spells; the bits after them are dropped. */
  function Bytes(s: string): Option<seq<int>> {
    if !InAlphabet(s) then None
    else
      var n := 3 * |s| / 4;
      NumBounds(Values(s), 64);
      Some(Digits(Num(Values(s), 64) / Slack(n), 256, n))
  }

  lemma ValuesOfSpelled(ds: seq<int>)
    requires AreDigits(ds, 64)
    ensures InAlphabet(Spelled(ds)) && Values(Spelled(ds)) == ds
  {
  }

  lemma ValueFits(bytes: seq<int>)
    requires AreDigits(bytes, 256)
    ensures 0 <= Num(bytes, 256) * Slack(|bytes|) < Pow(64, Chars(|bytes|))
  {
    var n := |bytes|;
    var value, slack := Num(bytes, 256), Slack(n);
    NumBounds(bytes, 256);
    Capacity(n);
    assert 1 <= slack;
    hide Num, Pow, Slack, Chars;
    MulMonotone(value + 1, Pow(256, n), slack);
    MulMonotone(0, value, slack);
    assert (value + 1) * slack == value * slack + slack;
  }

  /** Decoding gives back the bytes that were encoded. */
  lemma TextRoundTrip(bytes: seq<int>)
    requires AreDigits(bytes, 256)
    ensures Bytes(Text(bytes)) == Some(bytes)
  {
    var n := |bytes|;
    var value, slack, k := Num(bytes, 256), Slack(n), Chars(n);
    NumBounds(bytes, 256);
    ValueFits(bytes);
    assert 3 * k / 4 == n && slack >= 1;
    hide Num, Digits, Pow, Chars, Slack, Spelled;
    var ds := Digits(value * slack, 64, k);
    assert Text(bytes) == Spelled(ds);
    hide Text;
    NumOfDigits(value * slack, 64, k);
    ValuesOfSpelled(ds);
    DivModUnique(value * slack, slack, value, 0);
    BytesOfNumber(value, bytes);
  }

  lemma BytesOfNumber(value: nat, bytes: seq<int>)
    requires AreDigits(bytes, 256) && value == Num(bytes, 256)
    ensures Digits(value, 256, |bytes|) == bytes
  {
    NumBounds(bytes, 256);
    NumOfDigits(value, 256, |bytes|);
    hide Num, Digits, Pow;
    DigitsUnique(Digits(value, 256, |bytes|), bytes, 256);
  }

  /** Other bytes have another text. */
  lemma TextInjective(a: seq<int>, b: seq<int>)
    requires AreDigits(a, 256) && AreDigits(b, 256) && Text(a) == Text(b)
    ensures a == b
  {
    TextRoundTrip(a);
    TextRoundTrip(b);
  }
}
