/** The 26-character form of a 16-byte key id: lower-case base32 without padding. */
module KeyId {
  import opened Options
  import opened Positional
  import opened Base32

  type Uuid = bytes: seq<int> | |bytes| == 16 && AreDigits(bytes, 256)
    witness [0, 0, 0, 0, 0, 0, 0, 0, 0, 0, 0, 0, 0, 0, 0, 0]

  function LowerChar(d: int): (c: char)
    requires 0 <= d < 32
  {
    if d < 26 then ('a' as int + d) as char else ('2' as int + d - 26) as char
  }

  lemma LowerTable(d: int)
    requires 0 <= d < 32
    ensures LowerChar(d) == "abcdefghijklmnopqrstuvwxyz234567"[d]
  {
  }

  function Spell(ds: seq<int>): (s: string)
    requires AreDigits(ds, 32)
    ensures |s| == |ds|
  {
    seq(|ds|, i requires 0 <= i < |ds| => LowerChar(ds[i]))
  }

  function UpperChar(c: char): char {
    if 'a' <= c <= 'z' then (c as int - 32) as char else c
  }

  function Upper(s: string): (t: string)
    ensures |t| == |s|
  {
    seq(|s|, i requires 0 <= i < |s| => UpperChar(s[i]))
  }

  /** The bit string is padded with zeros to a whole number of characters (section 6 of RFC 4648). */
  function EncodeId(id: Uuid): (s: string)
    ensures |s| == 26
  {
    NumBounds(id, 256);
    Spell(Digits(Num(id, 256) * 4, 32, 26))
  }

  /** The bytes 26 characters spell; the two lowest bits of the last one are dropped. */
  function DecodeId(s: string): (id: Option<Uuid>)
    requires |s| == 26
    ensures id.Some? <==> InAlphabet(Upper(s))
    ensures id.Some? ==> Spells(Upper(s), id.value)
  {
    if !InAlphabet(Upper(s)) then None
    else
      var v := Num(Indices(Upper(s)), 32);
      NumBounds(Indices(Upper(s)), 32);
      SpelledBytes(v);
      Some(Digits(v / 4, 256, 16))
  }

  /** Eight characters carry five bytes. */
  lemma {:induction false} EightForFive(k: nat)
    ensures Pow(32, 8 * k) == Pow(256, 5 * k)
  {
    if k > 0 {
      EightForFive(k - 1);
      var p, q := 8 * (k - 1), 5 * (k - 1);
      assert Pow(32, p + 2) == Pow(32, p) * 1024;
      assert Pow(32, p + 4) == Pow(32, p + 2) * 1024;
      assert Pow(32, p + 6) == Pow(32, p + 4) * 1024;
      assert Pow(32, p + 8) == Pow(32, p + 6) * 1024;
      assert Pow(256, q + 2) == Pow(256, q) * 0x1_0000;
      assert Pow(256, q + 4) == Pow(256, q + 2) * 0x1_0000;
      assert Pow(256, q + 5) == Pow(256, q + 4) * 256;
    }
  }

  lemma SpelledBytes(v: nat)
    requires v < Pow(32, 26)
    ensures Num(Digits(v / 4, 256, 16), 256) == ShiftRight(v, 2)
  {
    EightForFive(3);
    assert Pow(32, 25) == Pow(32, 24) * 32 && Pow(32, 26) == Pow(32, 25) * 32 && Pow(256, 16) == Pow(256, 15) * 256;
    NumOfDigits(v / 4, 256, 16);
    assert TwoTo(2) == 4;
  }

  /** `(s + '======').slice(0, 32)`. */
  function Padded(s: string): string {
    if |s| <= 26 then s + "======" else (s + "======")[..32]
  }

  /**
    `decodeBase32Uuid`, for whatever `toUpperCase` makes of the segment: outside ASCII it may map
    letters into the alphabet, or one letter to several. What is left of 32 characters without
    padding must be 26 or 27 characters of the alphabet; of ASCII segments, 26 such characters.
  */
  method DecodeBase32Uuid(s: string, toUpperCase: string -> string) returns (id: Option<seq<int>>)
    ensures var t := Unpadded(Padded(toUpperCase(s)));
      && (id.Some? <==> InAlphabet(t) && |t| in {26, 27})
      && (id.Some? ==> |id.value| == 16 && Spells(t, id.value))
    ensures |s| == 26 && toUpperCase(s) == Upper(s) ==>
      match DecodeId(s) case None => id == None case Some(bytes) => id == Some(bytes)
  {
    var upper := toUpperCase(s);
    id := Base32Decode(Padded(upper));
    if id.Some? && |id.value| != 16 { id := None; }
    if |s| == 26 && upper == Upper(s) {
      PaddingStripped(upper);
      if id.Some? && DecodeId(s).Some? { DigitsUnique(id.value, DecodeId(s).value, 256); }
    }
  }

  lemma PaddingStripped(s: string)
    requires |s| == 26
    ensures Unpadded(Padded(s)) == Unpadded(s)
    ensures InAlphabet(s) ==> Unpadded(s) == s
    ensures Unpadded(s) == s || |Unpadded(s)| < |s|
  {
    StripPads(s, 6);
    UnpaddedIsShorter(s);
    assert s + "======" == s + Pads(6);
  }

  lemma {:induction false} UnpaddedIsShorter(s: string)
    ensures Unpadded(s) == s || |Unpadded(s)| < |s|
  {
    if s != "" { UnpaddedIsShorter(s[..|s| - 1]); }
  }

  function Pads(n: nat): string {
    seq(n, _ => '=')
  }

  lemma {:induction false} StripPads(s: string, n: nat)
    ensures Unpadded(s + Pads(n)) == Unpadded(s)
  {
    if n == 0 {
      assert s + Pads(0) == s;
    } else {
      assert (s + Pads(n))[..|s| + n - 1] == s + Pads(n - 1);
      StripPads(s, n - 1);
    }
  }

  // ─── Exactly four spellings ───────────────────────────────────────────────

  /** Lower-case alphabet strings, which are what Spell produces. */
  predicate IsLower(s: string) {
    forall i :: 0 <= i < |s| ==> 'a' <= s[i] <= 'z' || '2' <= s[i] <= '7'
  }

  lemma LowerInAlphabet(s: string)
    requires IsLower(s)
    ensures InAlphabet(Upper(s)) && s == Spell(Indices(Upper(s)))
  {
  }

  lemma SpellBack(ds: seq<int>)
    requires AreDigits(ds, 32)
    ensures IsLower(Spell(ds)) && InAlphabet(Upper(Spell(ds))) && Indices(Upper(Spell(ds))) == ds
  {
  }

  lemma IdFits(id: Uuid, low: nat)
    requires low < 4
    ensures 0 <= Num(id, 256) * 4 + low < Pow(32, 26)
  {
    NumBounds(id, 256);
    EightForFive(3);
    assert Pow(32, 25) == Pow(32, 24) * 32 && Pow(32, 26) == Pow(32, 25) * 32 && Pow(256, 16) == Pow(256, 15) * 256;
  }

  /** The id's bits followed by two free ones; `low` 0 is the encoder's choice. */
  function Spelling(id: Uuid, low: nat): (s: string)
    requires low < 4
    ensures |s| == 26
  {
    IdFits(id, low);
    Spell(Digits(Num(id, 256) * 4 + low, 32, 26))
  }

  lemma DecodesIff(s: string, id: Uuid)
    requires |s| == 26 && InAlphabet(Upper(s))
    ensures DecodeId(s) == Some(id) <==> Num(Indices(Upper(s)), 32) / 4 == Num(id, 256)
  {
    assert TwoTo(2) == 4;
    assert Spells(Upper(s), DecodeId(s).value);
    if Num(DecodeId(s).value, 256) == Num(id, 256) { DigitsUnique(DecodeId(s).value, id, 256); }
  }

  /** What number a lower-case string spells. */
  function Spelled(s: string): int
    requires IsLower(s)
  {
    LowerInAlphabet(s);
    Num(Indices(Upper(s)), 32)
  }

  lemma SpellingSpells(id: Uuid, low: nat)
    requires low < 4
    ensures IsLower(Spelling(id, low)) && Spelled(Spelling(id, low)) == Num(id, 256) * 4 + low
  {
    hide Upper, Spell, Indices, Digits, Num, IsLower, InAlphabet, Pow;
    IdFits(id, low);
    var n: nat := Num(id, 256) * 4 + low;
    NumOfDigits(n, 32, 26);
    SpellBack(Digits(n, 32, 26));
  }

  lemma SpelledIsUnique(s: string, t: string)
    requires IsLower(s) && IsLower(t) && |s| == |t| && Spelled(s) == Spelled(t)
    ensures s == t
  {
    LowerInAlphabet(s);
    LowerInAlphabet(t);
    hide Num, Upper, Spell;
    DigitsUnique(Indices(Upper(s)), Indices(Upper(t)), 32);
  }

  lemma SpellingIff(s: string, id: Uuid, low: nat)
    requires |s| == 26 && IsLower(s) && low < 4
    ensures s == Spelling(id, low) <==> Spelled(s) == Num(id, 256) * 4 + low
  {
    SpellingSpells(id, low);
    hide Spelling, Spelled, IsLower;
    if Spelled(s) == Num(id, 256) * 4 + low { SpelledIsUnique(s, Spelling(id, low)); }
  }

  /**
    Of the lower-case 26-character strings exactly four decode to a given id: its encoding and the
    three that differ from it in the two bits the padding leaves free.
  */
  lemma ExactlyFourSpellings(s: string, id: Uuid)
    requires |s| == 26 && IsLower(s)
    ensures DecodeId(s) == Some(id) <==> s in {Spelling(id, 0), Spelling(id, 1), Spelling(id, 2), Spelling(id, 3)}
  {
    LowerInAlphabet(s);
    NumBounds(Indices(Upper(s)), 32);
    DecodesIff(s, id);
    var n, v := Num(id, 256), Spelled(s);
    assert DecodeId(s) == Some(id) <==> v / 4 == n;
    hide Spelling, DecodeId, Num, Indices, Upper, Spell, Spelled, IsLower, InAlphabet;
    SpellingIff(s, id, 0);
    SpellingIff(s, id, 1);
    SpellingIff(s, id, 2);
    SpellingIff(s, id, 3);
  }

  lemma SpellingsDiffer(id: Uuid, i: nat, j: nat)
    requires i < j < 4
    ensures Spelling(id, i) != Spelling(id, j)
  {
    SpellingSpells(id, i);
    SpellingSpells(id, j);
    hide Spelling, Spelled, Num;
  }

  /** Decoding the encoding of any 16 bytes gives them back. */
  lemma IdRoundTrip(id: Uuid)
    ensures IsLower(EncodeId(id)) && DecodeId(EncodeId(id)) == Some(id)
  {
    IdFits(id, 0);
    SpellBack(Digits(Num(id, 256) * 4, 32, 26));
    assert EncodeId(id) == Spelling(id, 0);
    ExactlyFourSpellings(EncodeId(id), id);
  }
}
