/**
  The Python SDK's side of the token: parsing with the expiry check, truncation for transport and
  re-insertion of the decryption key. Each call reads the clock once more.
*/
module SdkToken {
  import opened Underscores
  import opened Numerals
  import opened KeyId
  import opened ApiKeyToken

  const PLACEHOLDER := "AAAAAAAAAAAAAAAAAAAAAAAAAAAAAAAAAAAAAAAAAAA"

  /** `urlsafe_b64decode` skips other characters, so only these 43 decode to 32 bytes. */
  predicate IsBase64(c: char) {
    'A' <= c <= 'Z' || 'a' <= c <= 'z' || '0' <= c <= '9' || c in "+/-_"
  }

  predicate KeyDecodes(dkey: string) {
    |dkey| == DKEY_LEN && forall i :: 0 <= i < |dkey| ==> IsBase64(dkey[i])
  }

  function Parse(p: Platform, token: string, now: int): Result<ParsedToken> {
    var parsed := ParseToken(p, token);
    if parsed.Err? then parsed
    else if !KeyDecodes(parsed.value.raw.dkey) then Err("invalid_dkey")
    else if parsed.value.exp != 0 && parsed.value.exp < now then Err("token_expired")
    else parsed
  }

  function TruncateForTransport(p: Platform, token: string, now: int): Result<string> {
    var parsed := Parse(p, token, now);
    if parsed.Err? then Err(parsed.code)
    else if |token| < SUFFIX_LEN + 1 then Err("invalid_format")
    else Ok(token[..|token| - SUFFIX_LEN - 1] + "_" + parsed.value.raw.auth + "_" + PLACEHOLDER + "_" + parsed.value.raw.hmac)
  }

  function WithDecryptionKey(p: Platform, token: string, dkey: string, now: int, later: int): Result<string> {
    var truncated := TruncateForTransport(p, token, now);
    if truncated.Err? then truncated
    else
      var t := truncated.value;
      var tail := DKEY_LEN + 1 + HMAC_LEN;
      if |t| < tail then Err("invalid_format")
      else
        var rebuilt := t[..|t| - tail] + dkey + t[|t| - HMAC_LEN - 1..];
        var again := Parse(p, rebuilt, later);
        if again.Err? then Err(again.code) else Ok(rebuilt)
  }

  // ─── Replacing the key segment ────────────────────────────────────────────

  function WithKey(raw: Raw, dkey: string): Raw {
    raw.(dkey := dkey)
  }

  lemma ReplacedFields(raw: Raw, dkey: string)
    requires Shaped(raw) && |dkey| == DKEY_LEN
    ensures RawFields(Render(WithKey(raw, dkey))) == Ok(WithKey(raw, dkey))
  {
    RawFieldsOfRender(WithKey(raw, dkey));
  }

  /** A token whose key segment is replaced by another valid one parses to the same fields but that one. */
  lemma ReplacedParses(p: Platform, token: string, dkey: string, now: int, later: int)
    requires Parse(p, token, now).Ok? && KeyDecodes(dkey)
    ensures var parsed := Parse(p, token, now).value; var again := Parse(p, Render(WithKey(parsed.raw, dkey)), later);
      if parsed.exp != 0 && parsed.exp < later then again == Err("token_expired")
      else again == Ok(parsed.(raw := WithKey(parsed.raw, dkey)))
  {
    RenderOfRawFields(token);
    assert |dkey| == DKEY_LEN;
    hide Render, RawFields, DecodeId, Shaped, KeyDecodes;
    ReplacedFields(RawFields(token).value, dkey);
  }

  lemma PrefixCount(raw: Raw)
    requires Plain(raw.version) && Plain(raw.id) && Plain(raw.exp) && Plain(raw.perms)
    ensures Count(Prefix(raw)) == 4
  {
    var parts := ["hrpv", raw.version, raw.id, raw.exp, raw.perms];
    SplitOfJoin(parts);
    JoinOfSplit(Join(parts));
  }

  /** Of two texts with equally many underscores, neither followed by one is the start of the other. */
  lemma SameCountSameEnd(t: string, m: nat, n: nat)
    requires m < |t| && n < |t| && t[m] == '_' && t[n] == '_' && Count(t[..m]) == Count(t[..n])
    ensures m == n
  {
    assert Count(['_']) == 1 by { assert ['_'][..0] == ""; }
    var lo, hi := if m < n then m else n, if m < n then n else m;
    if lo < hi {
      assert t[..hi] == t[..lo] + (['_'] + t[lo + 1..hi]);
      CountConcat(t[..lo], ['_'] + t[lo + 1..hi]);
      CountConcat(['_'], t[lo + 1..hi]);
    }
  }

  /** A key segment of another length moves the fixed places, and the head no longer splits into five. */
  lemma WrongLengthIsRefused(raw: Raw, dkey: string)
    requires Shaped(raw) && |dkey| != DKEY_LEN
    ensures RawFields(Render(WithKey(raw, dkey))).Err?
  {
    var t := Render(WithKey(raw, dkey));
    if RawFields(t).Ok? {
      var other := RawFields(t).value;
      RenderOfRawFields(t);
      PrefixCount(raw);
      PrefixCount(other);
      hide RawFields, Prefix, Count;
      assert Prefix(WithKey(raw, dkey)) == Prefix(raw) by { SamePrefix(raw, dkey); }
      var m, n := |Prefix(raw)|, |Prefix(other)|;
      assert t == Prefix(raw) + "_" + (raw.auth + "_" + dkey + "_" + raw.hmac);
      assert t == Prefix(other) + "_" + (other.auth + "_" + other.dkey + "_" + other.hmac);
      assert t[..m] == Prefix(raw) && t[m] == '_' && t[..n] == Prefix(other) && t[n] == '_';
      SameCountSameEnd(t, m, n);
    }
  }

  lemma SamePrefix(raw: Raw, dkey: string)
    ensures Prefix(WithKey(raw, dkey)) == Prefix(raw)
  {
  }

  lemma PlaceholderDecodes()
    ensures KeyDecodes(PLACEHOLDER)
  {
  }

  // ─── Truncation and its inverse ───────────────────────────────────────────

  lemma TruncatedText(p: Platform, token: string, now: int)
    requires Parse(p, token, now).Ok?
    ensures TruncateForTransport(p, token, now) == Ok(Render(WithKey(Parse(p, token, now).value.raw, PLACEHOLDER)))
    ensures Shaped(Parse(p, token, now).value.raw) && token == Render(Parse(p, token, now).value.raw)
  {
    RenderOfRawFields(token);
    var raw := RawFields(token).value;
    RenderedLayout(raw);
    SamePrefix(raw, PLACEHOLDER);
    hide Prefix, RawFields, DecodeId;
    SameText(Prefix(raw), raw.auth, PLACEHOLDER, raw.hmac);
  }

  lemma SameText(head: string, auth: string, dkey: string, hmac: string)
    ensures head + "_" + auth + "_" + dkey + "_" + hmac == head + "_" + (auth + "_" + dkey + "_" + hmac)
  {
  }

  /** Truncation keeps every signed field and the MAC, and blanks only the key. */
  lemma TruncationKeepsSignedFields(p: Platform, token: string, now: int)
    requires Parse(p, token, now).Ok?
    ensures var t := TruncateForTransport(p, token, now); var parsed := Parse(p, token, now).value;
      && t.Ok? && Parse(p, t.value, now) == Ok(parsed.(raw := WithKey(parsed.raw, PLACEHOLDER)))
      && Message(WithKey(parsed.raw, PLACEHOLDER)) == Message(parsed.raw)
      && forall key :: VerifyHmac(p, key, WithKey(parsed.raw, PLACEHOLDER)) <==> VerifyHmac(p, key, parsed.raw)
  {
    TruncatedText(p, token, now);
    PlaceholderDecodes();
    ReplacedParses(p, token, PLACEHOLDER, now, now);
    hide Parse, TruncateForTransport, Render;
  }

  lemma TruncationIsIdempotent(p: Platform, token: string, now: int)
    requires TruncateForTransport(p, token, now).Ok?
    ensures TruncateForTransport(p, TruncateForTransport(p, token, now).value, now) == TruncateForTransport(p, token, now)
  {
    TruncationKeepsSignedFields(p, token, now);
    TruncatedText(p, token, now);
    TruncatedText(p, TruncateForTransport(p, token, now).value, now);
    hide Parse, TruncateForTransport, Render, Shaped;
  }

  lemma RebuiltText(raw: Raw, dkey: string)
    requires FixedLengths(raw)
    ensures var t := Render(WithKey(raw, PLACEHOLDER)); var tail := DKEY_LEN + 1 + HMAC_LEN;
      && |t| >= tail
      && t[..|t| - tail] + dkey + t[|t| - HMAC_LEN - 1..] == Render(WithKey(raw, dkey))
  {
    SamePrefix(raw, PLACEHOLDER);
    SamePrefix(raw, dkey);
    hide Prefix;
    var front := Prefix(raw) + "_" + raw.auth + "_";
    assert Render(WithKey(raw, PLACEHOLDER)) == front + PLACEHOLDER + ("_" + raw.hmac);
    assert Render(WithKey(raw, dkey)) == front + dkey + ("_" + raw.hmac);
  }

  /**
    Inserting a key into an accepted token succeeds if and only if the key is 43 base64 characters
    and the token has not expired meanwhile; the result is the token with that key and nothing else
    changed.
  */
  lemma InsertionIff(p: Platform, token: string, dkey: string, now: int, later: int)
    requires Parse(p, token, now).Ok?
    ensures var parsed := Parse(p, token, now).value; var inserted := WithDecryptionKey(p, token, dkey, now, later);
      && (inserted.Ok? <==> KeyDecodes(dkey) && (parsed.exp == 0 || later <= parsed.exp))
      && (inserted.Ok? ==> inserted == Ok(Render(WithKey(parsed.raw, dkey))))
  {
    var parsed := Parse(p, token, now).value;
    InsertionText(p, token, dkey, now, later);
    TruncatedText(p, token, now);
    hide Parse, TruncateForTransport, WithDecryptionKey, Render, Shaped, KeyDecodes;
    if KeyDecodes(dkey) {
      ReplacedParses(p, token, dkey, now, later);
    } else {
      BadKeyIsRefused(p, parsed.raw, dkey, later);
    }
  }

  lemma BadKeyIsRefused(p: Platform, raw: Raw, dkey: string, now: int)
    requires Shaped(raw) && !KeyDecodes(dkey)
    ensures Parse(p, Render(WithKey(raw, dkey)), now).Err?
  {
    if |dkey| != DKEY_LEN {
      WrongLengthIsRefused(raw, dkey);
    } else {
      RawFieldsOfRender(WithKey(raw, dkey));
    }
    hide RawFields, DecodeId, Render, Shaped;
  }

  /** Insertion rebuilds the token text and parses it again. */
  lemma InsertionText(p: Platform, token: string, dkey: string, now: int, later: int)
    requires Parse(p, token, now).Ok?
    ensures var rebuilt := Render(WithKey(Parse(p, token, now).value.raw, dkey));
      WithDecryptionKey(p, token, dkey, now, later)
        == if Parse(p, rebuilt, later).Err? then Err(Parse(p, rebuilt, later).code) else Ok(rebuilt)
  {
    TruncatedText(p, token, now);
    hide Parse, Render, TruncateForTransport;
    RebuiltText(Parse(p, token, now).value.raw, dkey);
  }

  /** Re-inserting a token's own key into its truncated form gives back the exact token. */
  lemma InsertionInvertsTruncation(p: Platform, token: string, now: int)
    requires Parse(p, token, now).Ok?
    ensures WithDecryptionKey(p, TruncateForTransport(p, token, now).value, Parse(p, token, now).value.raw.dkey, now, now) == Ok(token)
  {
    var parsed := Parse(p, token, now).value;
    TruncationKeepsSignedFields(p, token, now);
    TruncatedText(p, token, now);
    InsertionIff(p, TruncateForTransport(p, token, now).value, parsed.raw.dkey, now, now);
    assert KeyDecodes(parsed.raw.dkey) && (parsed.exp == 0 || now <= parsed.exp);
    hide Parse, Render, TruncateForTransport, WithDecryptionKey, Shaped;
    assert WithKey(WithKey(parsed.raw, PLACEHOLDER), parsed.raw.dkey) == parsed.raw;
  }

  /**
    The server signs without ever seeing the key: inserting a key into the token it signed with the
    placeholder gives the token it would have encoded with that key.
  */
  lemma ServerNeverNeedsTheKey(p: Platform, id: Uuid, exp: nat, perms: nat, auth: string, dkey: string, masterKey: string, now: int, later: int)
    requires Sound(p) && perms <= 0x3F && |auth| == AUTH_LEN && KeyDecodes(dkey)
    requires exp == 0 || (now <= exp && later <= exp)
    ensures WithDecryptionKey(p, EncodeToken(p, id, exp, perms, auth, PLACEHOLDER, masterKey), dkey, now, later)
      == Ok(EncodeToken(p, id, exp, perms, auth, dkey, masterKey))
  {
    var blank := Signed(p, masterKey, Raw("1", EncodeId(id), B36(exp), Hex2(perms), auth, PLACEHOLDER, ""));
    var token := EncodeToken(p, id, exp, perms, auth, PLACEHOLDER, masterKey);
    PlaceholderDecodes();
    TokenRoundTrip(p, id, exp, perms, auth, PLACEHOLDER, masterKey);
    EncodedIsShaped(p, id, exp, perms, auth, PLACEHOLDER, masterKey);
    RawFieldsOfRender(blank);
    assert ParseToken(p, token).value.raw == blank;
    assert Parse(p, token, now).Ok?;
    InsertionIff(p, token, dkey, now, later);
    assert Message(WithKey(blank, dkey)) == Message(blank);
    hide Parse, Render, ParseToken, WithDecryptionKey, Shaped, Message, B36, Hex2, EncodeId;
  }
}
