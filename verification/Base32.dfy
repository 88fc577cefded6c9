/**
  The base32 decoder of the JavaScript SDK and the 26-character form of a key id
  (section 6 of RFC 4648).

  JavaScript's bit operators work on signed 32-bit numbers. They are written here by their
  arithmetic meaning: `x << 5` is x * 32 wrapped to 32 bits, `| idx` adds to a number whose five
  low bits are zero, `>> k` divides by 2^k rounding down, and `& 0xff` keeps the remainder of 256.
*/
module Base32 {
  import opened Options
  import opened Positional

  /** `B32_ALPHABET.indexOf(c)`: A-Z are 0-25 and 2-7 are 26-31. */
  function IndexOf(c: char): (i: int)
    ensures -1 <= i < 32
  {
    if 'A' <= c <= 'Z' then c as int - 'A' as int
    else if '2' <= c <= '7' then c as int - '2' as int + 26
    else -1
  }

  lemma IndexTable(c: char, i: int)
    requires 0 <= i < 32
    ensures IndexOf(c) == i <==> c == "ABCDEFGHIJKLMNOPQRSTUVWXYZ234567"[i]
  {
  }

  predicate InAlphabet(s: string) {
    forall i :: 0 <= i < |s| ==> IndexOf(s[i]) >= 0
  }

  function Indices(s: string): (ds: seq<int>)
    requires InAlphabet(s)
    ensures |ds| == |s| && AreDigits(ds, 32)
  {
    seq(|s|, i requires 0 <= i < |s| => IndexOf(s[i]))
  }

  function TwoTo(k: nat): (p: nat)
    ensures p >= 1
  {
    if k == 0 then 1 else 2 * TwoTo(k - 1)
  }

  lemma TwoToTable()
    ensures TwoTo(0) == 1 && TwoTo(1) == 2 && TwoTo(2) == 4 && TwoTo(3) == 8 && TwoTo(4) == 16
    ensures TwoTo(5) == 32 && TwoTo(6) == 64 && TwoTo(7) == 128
  {
  }

  /** `x >> k`. */
  function ShiftRight(x: int, k: nat): int {
    x / TwoTo(k)
  }

  /** `(x >> k) & 0xff`. */
  function ByteAt(x: int, k: nat): (b: int)
    ensures 0 <= b < 256
  {
    ShiftRight(x, k) % 256
  }

  /** The whole bytes of the bit string a base32 string spells: the first floor(5n/8) of them. */
  predicate Spells(s: string, out: seq<int>)
    requires InAlphabet(s)
  {
    && |out| == 5 * |s| / 8 && AreDigits(out, 256)
    && Num(out, 256) == ShiftRight(Num(Indices(s), 32), 5 * |s| % 8)
  }

  lemma {:induction false} TwoToIsPow(k: nat)
    ensures TwoTo(k) == Pow(2, k)
  {
    if k > 0 { TwoToIsPow(k - 1); }
  }

  /** Eight characters carry five bytes, and fewer carry the whole bytes below. */
  lemma {:induction false} CharactersCarry(n: nat)
    ensures Pow(32, n) == Pow(256, 5 * n / 8) * Pow(2, 5 * n % 8)
  {
    if n < 8 {
      FewCharacters(n);
    } else {
      CharactersCarry(n - 8);
      var p, m := n - 8, 5 * (n - 8) / 8;
      assert 5 * n / 8 == m + 5 && 5 * n % 8 == 5 * (n - 8) % 8;
      assert Pow(32, p + 2) == Pow(32, p) * 1024;
      assert Pow(32, p + 4) == Pow(32, p + 2) * 1024;
      assert Pow(32, p + 6) == Pow(32, p + 4) * 1024;
      assert Pow(32, p + 8) == Pow(32, p + 6) * 1024;
      assert Pow(256, m + 2) == Pow(256, m) * 0x1_0000;
      assert Pow(256, m + 4) == Pow(256, m + 2) * 0x1_0000;
      assert Pow(256, m + 5) == Pow(256, m + 4) * 256;
      hide Pow;
      Exchange(Pow(256, m), Pow(2, 5 * n % 8), 0x100_0000_0000);
    }
  }

  lemma Exchange(a: int, b: int, c: int)
    ensures (a * c) * b == (a * b) * c
  {
  }

  lemma FewCharacters(n: nat)
    requires n < 8
    ensures Pow(32, n) == Pow(256, 5 * n / 8) * Pow(2, 5 * n % 8)
  {
    assert Pow(2, 1) == 2 && Pow(2, 2) == 4 && Pow(2, 3) == 8 && Pow(2, 4) == 16;
    assert Pow(2, 5) == 32 && Pow(2, 6) == 64 && Pow(2, 7) == 128;
    assert Pow(32, 1) == 32 && Pow(32, 2) == 1024 && Pow(32, 3) == 0x8000 && Pow(32, 4) == 0x10_0000;
    assert Pow(32, 5) == 0x200_0000 && Pow(32, 6) == 0x4000_0000 && Pow(32, 7) == 0x8_0000_0000;
    assert Pow(256, 1) == 256 && Pow(256, 2) == 0x1_0000 && Pow(256, 3) == 0x100_0000 && Pow(256, 4) == 0x1_0000_0000;
  }

  /** The bytes spelled are exactly one string: the digits of the number without its low bits. */
  lemma SpellsIff(s: string, out: seq<int>)
    requires InAlphabet(s)
    ensures Pow(2, 5 * |s| % 8) >= 1 && Num(Indices(s), 32) / Pow(2, 5 * |s| % 8) >= 0
    ensures Spells(s, out) <==> out == Digits(Num(Indices(s), 32) / Pow(2, 5 * |s| % 8), 256, 5 * |s| / 8)
  {
    var v, m, r := Num(Indices(s), 32), 5 * |s| / 8, 5 * |s| % 8;
    NumBounds(Indices(s), 32);
    CharactersCarry(|s|);
    TwoToIsPow(r);
    hide Num, Digits, Indices, TwoTo, InAlphabet, Pow;
    DivBelow(v, Pow(2, r), Pow(256, m));
    var bytes := Digits(v / Pow(2, r), 256, m);
    NumOfDigits(v / Pow(2, r), 256, m);
    if Spells(s, out) { DigitsUnique(out, bytes, 256); }
  }

  function ToInt32(x: int): (r: int)
    ensures -0x8000_0000 <= r < 0x8000_0000
    ensures exists w: int :: r == x + w * 0x1_0000_0000
  {
    var r := (x + 0x8000_0000) % 0x1_0000_0000 - 0x8000_0000;
    assert r == x + (-((x + 0x8000_0000) / 0x1_0000_0000)) * 0x1_0000_0000;
    r
  }

  lemma WrapUnique(r: int, x: int, w: int)
    requires -0x8000_0000 <= r < 0x8000_0000 && r == x + w * 0x1_0000_0000
    ensures r == ToInt32(x)
  {
  }

  /** Shifting the wrapped buffer is wrapping the shifted value: no bit below the 32nd is lost. */
  lemma ShiftWrapped(v: int, idx: int)
    requires 0 <= idx < 32
    ensures ToInt32(ToInt32(v) * 32) + idx == ToInt32(v * 32 + idx)
  {
    var a :| ToInt32(v) == v + a * 0x1_0000_0000;
    var b :| ToInt32(ToInt32(v) * 32) == ToInt32(v) * 32 + b * 0x1_0000_0000;
    WrapUnique(ToInt32(ToInt32(v) * 32) + idx, v * 32 + idx, 32 * a + b);
  }

  lemma NoByteYet(v: nat, idx: int, k: nat)
    requires 0 <= idx < 32 && k < 3
    ensures ShiftRight(v * 32 + idx, k + 5) == ShiftRight(v, k)
  {
    TwoToTable();
    hide TwoTo;
    if k == 0 {
    } else if k == 1 {
    } else {
    }
  }

  lemma DropByte(x: nat, m: nat)
    requires m in {1, 2, 4, 8, 16}
    ensures x / m == x / (m * 256) * 256 + x / m % 256
  {
  }

  /** Adding a multiple of m * 256 changes neither the m low units nor the byte above them. */
  lemma ByteOfShifted(x: int, m: int, e: int)
    requires m in {1, 2, 4, 8, 16}
    ensures (x + e * (m * 256)) / m % 256 == x / m % 256
  {
    assert (x + e * (m * 256)) / m == x / m + e * 256 by {
      if m == 1 {
      } else if m == 2 {
      } else if m == 4 {
      } else if m == 8 {
      } else {
      }
    }
    var q := x / m;
    assert (q + e * 256) % 256 == q % 256;
  }

  lemma WrapKeepsByte(x: int, k: nat)
    requires k < 5
    ensures ByteAt(ToInt32(x), k) == ByteAt(x, k)
  {
    TwoToTable();
    var m := TwoTo(k);
    var w :| ToInt32(x) == x + w * 0x1_0000_0000;
    var e: int := w * (if m == 1 then 0x100_0000 else if m == 2 then 0x80_0000 else if m == 4 then 0x40_0000
      else if m == 8 then 0x20_0000 else 0x10_0000);
    ByteOfShifted(x, m, e);
    assert e * (m * 256) == w * 0x1_0000_0000;
  }

  // ─── The decoder ──────────────────────────────────────────────────────────

  lemma IndicesSnoc(s: string, c: char)
    requires InAlphabet(s + [c])
    ensures InAlphabet(s) && Indices(s + [c]) == Indices(s) + [IndexOf(c)]
    ensures Num(Indices(s + [c]), 32) == Num(Indices(s), 32) * 32 + IndexOf(c)
    ensures Num(Indices(s), 32) >= 0
  {
    assert forall i :: 0 <= i < |s| ==> s[i] == (s + [c])[i];
    assert c == (s + [c])[|s|];
    NumSnoc(Indices(s), IndexOf(c), 32);
    NumBounds(Indices(s), 32);
  }

  /** One more character either completes a byte or completes none. */
  lemma OneMore(s: string, c: char, out: seq<int>)
    requires InAlphabet(s + [c]) && InAlphabet(s) && Spells(s, out)
    ensures var k := 5 * |s| % 8;
      && (k < 3 ==> Spells(s + [c], out))
      && (k >= 3 ==> Spells(s + [c], out + [ByteAt(Num(Indices(s + [c]), 32), k - 3)]))
  {
    var k := 5 * |s| % 8;
    var before, v := Num(Indices(s), 32), Num(Indices(s + [c]), 32);
    IndicesSnoc(s, c);
    hide Indices, InAlphabet, Num, IndexOf, ShiftRight, ByteAt, TwoTo;
    if k < 3 {
      NoByteYet(before, v - before * 32, k);
    } else {
      ByteDone(before, v - before * 32, k);
      NumSnoc(out, ByteAt(v, k - 3), 256);
    }
  }

  lemma ByteDone(v: nat, idx: int, k: nat)
    requires 0 <= idx < 32 && 3 <= k < 8
    ensures ShiftRight(v * 32 + idx, k - 3) == ShiftRight(v, k) * 256 + ByteAt(v * 32 + idx, k - 3)
  {
    TwoToTable();
    hide TwoTo;
    var x := v * 32 + idx;
    assert x / (TwoTo(k - 3) * 256) == v / TwoTo(k) by {
      if k == 3 {
      } else if k == 4 {
      } else if k == 5 {
      } else if k == 6 {
      } else {
      }
    }
    DropByte(x, TwoTo(k - 3));
  }

  /** `replace(/=+$/, '')`. */
  function Unpadded(s: string): (t: string) {
    if s != "" && s[|s| - 1] == '=' then Unpadded(s[..|s| - 1]) else s
  }

  /** What the loop has in hand after the characters s. */
  predicate InHand(s: string, bytes: seq<int>, buffer: int, bitsLeft: nat) {
    && InAlphabet(s) && Spells(s, bytes) && bitsLeft == 5 * |s| % 8 && buffer == ToInt32(Num(Indices(s), 32))
  }

  lemma AlphabetSnoc(s: string, c: char)
    requires InAlphabet(s + [c])
    ensures IndexOf(c) >= 0
  {
    assert (s + [c])[|s|] == c;
  }

  lemma NextInHand(s: string, c: char, bytes: seq<int>, buffer: int, bitsLeft: nat)
    requires InHand(s, bytes, buffer, bitsLeft) && InAlphabet(s + [c])
    ensures var next := ToInt32(buffer * 32) + IndexOf(c);
      && (bitsLeft < 3 ==> InHand(s + [c], bytes, next, bitsLeft + 5))
      && (bitsLeft >= 3 ==> InHand(s + [c], bytes + [ByteAt(next, bitsLeft - 3)], next, bitsLeft - 3))
  {
    hide Spells, ToInt32, Num, Indices, ShiftRight, ByteAt, TwoTo, InAlphabet;
    var v := Num(Indices(s), 32);
    IndicesSnoc(s, c);
    OneMore(s, c, bytes);
    AlphabetSnoc(s, c);
    hide IndexOf;
    ShiftWrapped(v, IndexOf(c));
    if bitsLeft >= 3 { WrapKeepsByte(v * 32 + IndexOf(c), bitsLeft - 3); }
  }

  /** The loop over a 32-bit buffer yields exactly the whole bytes spelled, for input of any length. */
  method Base32Decode(s: string) returns (out: Option<seq<int>>)
    ensures out.Some? <==> InAlphabet(Unpadded(s))
    ensures out.Some? ==> Spells(Unpadded(s), out.value)
  {
    hide InHand, ToInt32, ByteAt, Unpadded, InAlphabet, IndexOf, Spells;
    var clean := Unpadded(s);
    var bytes := [];
    var buffer, bitsLeft := 0, 0;
    NothingInHand();
    for n := 0 to |clean|
      invariant InHand(clean[..n], bytes, buffer, bitsLeft) && bitsLeft < 8
    {
      var idx := IndexOf(clean[n]);
      HandedAlphabet(clean[..n], bytes, buffer, bitsLeft);
      NextInAlphabet(clean, n);
      if idx < 0 { return None; }
      NextInHand(clean[..n], clean[n], bytes, buffer, bitsLeft);
      buffer := ToInt32(buffer * 32) + idx;
      bitsLeft := bitsLeft + 5;
      if bitsLeft >= 8 {
        bitsLeft := bitsLeft - 8;
        bytes := bytes + [ByteAt(buffer, bitsLeft)];
      }
    }
    assert clean[..|clean|] == clean;
    HandedAlphabet(clean, bytes, buffer, bitsLeft);
    return Some(bytes);
  }

  lemma HandedAlphabet(s: string, bytes: seq<int>, buffer: int, bitsLeft: nat)
    requires InHand(s, bytes, buffer, bitsLeft)
    ensures InAlphabet(s) && Spells(s, bytes)
  {
  }

  lemma NothingInHand()
    ensures InHand("", [], 0, 0)
  {
    SpellsNothing();
  }

  lemma NextInAlphabet(s: string, n: nat)
    requires n < |s| && InAlphabet(s[..n])
    ensures s[..n + 1] == s[..n] + [s[n]]
    ensures if IndexOf(s[n]) < 0 then !InAlphabet(s) else InAlphabet(s[..n] + [s[n]])
  {
    assert forall i :: 0 <= i < n ==> s[i] == s[..n][i];
  }

  lemma SpellsNothing()
    ensures InAlphabet("") && Spells("", []) && ToInt32(Num(Indices(""), 32)) == 0
  {
  }
}
