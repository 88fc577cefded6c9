/** Tokens whose secrets are the base64url text of bytes: what the server issues and the SDK accepts. */
module SdkKeys {
  import opened Options
  import opened Positional
  import opened Base64
  import opened KeyId
  import opened ApiKeyToken
  import opened SdkToken

  /** A secret or a decryption key. */
  type Key32 = bytes: seq<int> | |bytes| == 32 && AreDigits(bytes, 256)
    witness seq(32, i => 0)

  /** The fixed lengths are those of 32 and of 16 bytes. */
  lemma FieldLengths(key: Key32, mac: Uuid)
    ensures |Text(key)| == 43 && AUTH_LEN == 43 && DKEY_LEN == 43
    ensures |Text(mac)| == 22 && HMAC_LEN == 22
  {
  }

  /** The accepted characters are the images of 0..63 in the URL-safe and in the standard spelling. */
  lemma AlphabetIff(c: char)
    ensures IsBase64(c) <==> exists v :: 0 <= v < 64 && (c == CharOf(v) || c == StandardCharOf(v))
  {
    if IsBase64(c) {
      ValueOfIff(c, ValueOf(c));
    }
  }

  /** A key segment is accepted if and only if it has 43 characters and decodes; it decodes to 32 bytes. */
  lemma KeyDecodesIff(dkey: string)
    ensures KeyDecodes(dkey) <==> |dkey| == 43 && Bytes(dkey).Some?
    ensures KeyDecodes(dkey) ==> |Bytes(dkey).value| == 32 && AreDigits(Bytes(dkey).value, 256)
  {
    assert forall c :: IsBase64(c) <==> ValueOf(c) >= 0;
  }

  lemma KeyTextDecodes(key: Key32)
    ensures KeyDecodes(Text(key)) && Bytes(Text(key)) == Some(key)
  {
    TextRoundTrip(key);
    KeyDecodesIff(Text(key));
  }

  /**
    The SDK accepts every token the server encodes, for all 32-byte secrets and keys, unless it has
    expired, and reads the key out of it; a token without expiry does not expire.
  */
  lemma EncodedIsAcceptedIff(p: Platform, id: Uuid, exp: nat, perms: nat, secret: Key32, key: Key32, masterKey: string, now: int)
    requires Sound(p) && perms < 256
    ensures var parsed := Parse(p, EncodeToken(p, id, exp, perms, Text(secret), Text(key), masterKey), now);
      && (parsed.Ok? <==> perms <= 0x3F && (exp == 0 || now <= exp))
      && (parsed.Ok? ==>
        && parsed.value.apiKeyId == id && parsed.value.exp == exp && parsed.value.perms == perms
        && Bytes(parsed.value.raw.auth) == Some(secret) && Bytes(parsed.value.raw.dkey) == Some(key)
        && VerifyHmac(p, masterKey, parsed.value.raw))
      && (perms <= 0x3F && parsed.Err? ==> parsed == Err("token_expired"))
  {
    TokenRoundTrip(p, id, exp, perms, Text(secret), Text(key), masterKey);
    KeyTextDecodes(secret);
    KeyTextDecodes(key);
    hide Sound, ParseToken, EncodeToken, Text, Bytes, KeyDecodes, VerifyHmac;
  }

  lemma {:induction false} NumOfZeros(ds: seq<int>, b: int)
    requires forall i :: 0 <= i < |ds| ==> ds[i] == 0
    ensures Num(ds, b) == 0
  {
    if ds != [] { NumOfZeros(ds[..|ds| - 1], b); }
  }

  lemma {:induction false} DigitsOfZero(b: nat, len: nat)
    requires b >= 1
    ensures forall i :: 0 <= i < len ==> Digits(0, b, len)[i] == 0
  {
    DivModUnique(0, b, 0, 0);
    if len > 0 { DigitsOfZero(b, len - 1); }
  }

  lemma TextOfZeros(key: Key32)
    requires forall i :: 0 <= i < 32 ==> key[i] == 0
    ensures Text(key) == PLACEHOLDER
  {
    NumOfZeros(key, 256);
    DigitsOfZero(64, 43);
    assert Text(key) == Base64.Spelled(Digits(0, 64, 43));
    hide Num, Digits, Text;
    assert forall i :: 0 <= i < 43 ==> Text(key)[i] == 'A';
    assert forall i :: 0 <= i < 43 ==> PLACEHOLDER[i] == 'A';
  }

  /** An otherwise good token whose key segment does not decode is refused for that, expired or not. */
  lemma BadKeyIsNamed(p: Platform, id: Uuid, exp: nat, perms: nat, secret: Key32, dkey: string, masterKey: string, now: int)
    requires Sound(p) && perms <= 0x3F && |dkey| == 43 && Bytes(dkey).None?
    ensures Parse(p, EncodeToken(p, id, exp, perms, Text(secret), dkey, masterKey), now) == Err("invalid_dkey")
  {
    assert |Text(secret)| == AUTH_LEN;
    TokenRoundTrip(p, id, exp, perms, Text(secret), dkey, masterKey);
    KeyDecodesIff(dkey);
    hide Sound, ParseToken, EncodeToken, Text, Bytes, KeyDecodes, VerifyHmac;
  }

  /** The placeholder is the text of 32 zero bytes. */
  lemma PlaceholderIsZero(key: Key32)
    ensures Text(key) == PLACEHOLDER <==> forall i :: 0 <= i < 32 ==> key[i] == 0
  {
    var zeros: Key32 := seq(32, i => 0);
    TextOfZeros(zeros);
    hide Text;
    if Text(key) == PLACEHOLDER { TextInjective(key, zeros); }
    if forall i :: 0 <= i < 32 ==> key[i] == 0 { TextOfZeros(key); }
  }

  /**
    Into the token the server signed with the placeholder any 32-byte key can be inserted, until it
    expires; the result is the token the server would have encoded with that key.
  */
  lemma EveryKeyCanBeInserted(p: Platform, id: Uuid, exp: nat, perms: nat, secret: Key32, key: Key32, masterKey: string, now: int, later: int)
    requires Sound(p) && perms <= 0x3F && (exp == 0 || now <= exp)
    ensures var inserted := WithDecryptionKey(p, EncodeToken(p, id, exp, perms, Text(secret), PLACEHOLDER, masterKey), Text(key), now, later);
      && (inserted.Ok? <==> exp == 0 || later <= exp)
      && (inserted.Ok? ==> inserted == Ok(EncodeToken(p, id, exp, perms, Text(secret), Text(key), masterKey)))
  {
    var token := EncodeToken(p, id, exp, perms, Text(secret), PLACEHOLDER, masterKey);
    TokenRoundTrip(p, id, exp, perms, Text(secret), PLACEHOLDER, masterKey);
    PlaceholderDecodes();
    KeyTextDecodes(key);
    assert |Text(secret)| == AUTH_LEN;
    hide Sound, ParseToken, EncodeToken, Text, Bytes, KeyDecodes, VerifyHmac, WithDecryptionKey;
    assert Parse(p, token, now).Ok?;
    InsertionIff(p, token, Text(key), now, later);
    if exp == 0 || later <= exp {
      ServerNeverNeedsTheKey(p, id, exp, perms, Text(secret), Text(key), masterKey, now, later);
    }
  }
}
