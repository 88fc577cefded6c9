/**
  The `hrpv_{v}_{id}_{exp}_{perms}_{auth}_{dkey}_{hmac}` token: the positional parser, the
  encoder and the MAC check. The MAC and the host's integer parser are parameters; the latter
  need only read the numerals the encoder writes.
*/
module ApiKeyToken {
  import opened Options
  import opened Underscores
  import opened Numerals
  import opened KeyId

  const AUTH_LEN := 43
  const DKEY_LEN := 43
  const HMAC_LEN := 22
  const SUFFIX_LEN := AUTH_LEN + 1 + DKEY_LEN + 1 + HMAC_LEN
  const MIN_LEN := 4 + 1 + 1 + 1 + 26 + 1 + 1 + 1 + 2 + 1 + SUFFIX_LEN

  /** mac(master key, message), in its 22-character form; readInt(text, base) as `int` does. */
  datatype Platform = Platform(mac: (string, string) -> string, readInt: (string, int) -> Option<int>)

  ghost predicate Sound(p: Platform) {
    && (forall key, message :: |p.mac(key, message)| == HMAC_LEN)
    && forall s, b: int :: b in {16, 36} && IsNumeral(s, b) ==> p.readInt(s, b) == Some(NumeralValue(s, b))
  }

  datatype Result<T> = Ok(value: T) | Err(code: string)

  /** The fields as they stand in the token. */
  datatype Raw = Raw(version: string, id: string, exp: string, perms: string, auth: string, dkey: string, hmac: string)

  function Prefix(raw: Raw): string {
    Join(["hrpv", raw.version, raw.id, raw.exp, raw.perms])
  }

  function Suffix(raw: Raw): string {
    raw.auth + "_" + raw.dkey + "_" + raw.hmac
  }

  function Render(raw: Raw): string {
    Prefix(raw) + "_" + Suffix(raw)
  }

  /** `token[-k]`. */
  function FromEnd(s: string, k: nat): char
    requires 1 <= k <= |s|
  {
    s[|s| - k]
  }

  function StartsWith(s: string, prefix: string): bool {
    |prefix| <= |s| && s[..|prefix|] == prefix
  }

  /** The three fixed-length fields at the end, then the rest split at its underscores. */
  function RawFields(token: string): Result<Raw> {
    if !StartsWith(token, "hrpv_") then Err("invalid_prefix")
    else if |token| < MIN_LEN then Err("invalid_format")
    else if FromEnd(token, HMAC_LEN + 1) != '_' then Err("invalid_format")
    else if FromEnd(token, HMAC_LEN + 1 + DKEY_LEN + 1) != '_' then Err("invalid_format")
    else if FromEnd(token, SUFFIX_LEN + 1) != '_' then Err("invalid_format")
    else
      var n := |token|;
      var parts := Split(token[..n - SUFFIX_LEN - 1]);
      if |parts| != 5 then Err("invalid_format")
      else if parts[0] != "hrpv" then Err("invalid_prefix")
      else if parts[1] != "1" then Err("unsupported_version")
      else if |parts[2]| != 26 then Err("invalid_id_encoding")
      else Ok(Raw(parts[1], parts[2], parts[3], parts[4],
        token[n - SUFFIX_LEN..n - SUFFIX_LEN + AUTH_LEN],
        token[n - HMAC_LEN - 1 - DKEY_LEN..n - HMAC_LEN - 1],
        token[n - HMAC_LEN..]))
  }

  predicate FixedLengths(raw: Raw) {
    |raw.auth| == AUTH_LEN && |raw.dkey| == DKEY_LEN && |raw.hmac| == HMAC_LEN
  }

  /** The raw fields of some token. */
  predicate Shaped(raw: Raw) {
    && FixedLengths(raw) && raw.version == "1" && |raw.id| == 26
    && Plain(raw.id) && Plain(raw.exp) && Plain(raw.perms)
    && |raw.exp| + |raw.perms| >= 3
  }

  lemma PrefixText(raw: Raw)
    ensures Prefix(raw) == "hrpv_" + (raw.version + "_" + raw.id + "_" + raw.exp + "_" + raw.perms)
    ensures |Prefix(raw)| == 8 + |raw.version| + |raw.id| + |raw.exp| + |raw.perms|
  {
    var four := ["hrpv", raw.version, raw.id, raw.exp];
    assert [four[0]] == four[..3][..2][..1];
    assert Join(four[..3][..2]) == "hrpv" + "_" + raw.version;
    assert Join(four[..3]) == Join(four[..3][..2]) + "_" + raw.id;
    assert Join(four) == Join(four[..3]) + "_" + raw.exp;
    var five := ["hrpv", raw.version, raw.id, raw.exp, raw.perms];
    assert five[..4] == four;
    assert Join(five) == Join(four) + "_" + raw.perms;
  }

  /** Where each field of a rendered token stands, whatever the fields contain. */
  lemma RenderedLayout(raw: Raw)
    requires FixedLengths(raw)
    ensures var t := Render(raw); var n := |t|;
      && n == |Prefix(raw)| + 1 + SUFFIX_LEN
      && t[..n - SUFFIX_LEN - 1] == Prefix(raw)
      && FromEnd(t, HMAC_LEN + 1) == '_' && FromEnd(t, HMAC_LEN + 1 + DKEY_LEN + 1) == '_' && FromEnd(t, SUFFIX_LEN + 1) == '_'
      && t[n - SUFFIX_LEN..n - SUFFIX_LEN + AUTH_LEN] == raw.auth
      && t[n - HMAC_LEN - 1 - DKEY_LEN..n - HMAC_LEN - 1] == raw.dkey
      && t[n - HMAC_LEN..] == raw.hmac
  {
    hide Prefix;
  }

  lemma RawFieldsOfRender(raw: Raw)
    requires Shaped(raw)
    ensures RawFields(Render(raw)) == Ok(raw)
  {
    RenderedLayout(raw);
    PrefixText(raw);
    assert StartsWith(Render(raw), "hrpv_");
    SplitOfJoin(["hrpv", raw.version, raw.id, raw.exp, raw.perms]);
    hide Render, Join, Split, StartsWith;
  }

  /** A token with underscores at the three fixed places is its head and the three fields after it. */
  lemma Reassemble(t: string)
    requires |t| >= MIN_LEN
    requires FromEnd(t, HMAC_LEN + 1) == '_' && FromEnd(t, HMAC_LEN + 1 + DKEY_LEN + 1) == '_' && FromEnd(t, SUFFIX_LEN + 1) == '_'
    ensures var n := |t|;
      t == t[..n - SUFFIX_LEN - 1] + "_" + (t[n - SUFFIX_LEN..n - SUFFIX_LEN + AUTH_LEN] + "_"
        + t[n - HMAC_LEN - 1 - DKEY_LEN..n - HMAC_LEN - 1] + "_" + t[n - HMAC_LEN..])
  {
  }

  lemma RenderOfRawFields(token: string)
    requires RawFields(token).Ok?
    ensures Shaped(RawFields(token).value) && Render(RawFields(token).value) == token
  {
    var head := token[..|token| - SUFFIX_LEN - 1];
    var raw := RawFields(token).value;
    Reassemble(token);
    JoinOfSplit(head);
    assert Split(head) == ["hrpv", raw.version, raw.id, raw.exp, raw.perms];
    PrefixText(raw);
    assert AllPlain(Split(head)) && forall i :: 0 <= i < 5 ==> Plain(Split(head)[i]);
    hide Split, Join;
  }

  /** The parser takes a token apart if and only if it is rendered from well-formed fields, and finds those. */
  lemma RawFieldsIff(token: string, raw: Raw)
    ensures RawFields(token) == Ok(raw) <==> Shaped(raw) && token == Render(raw)
  {
    if RawFields(token).Ok? { RenderOfRawFields(token); }
    if Shaped(raw) && token == Render(raw) { RawFieldsOfRender(raw); }
  }

  // ─── Parsing and encoding ─────────────────────────────────────────────────

  datatype ParsedToken = ParsedToken(raw: Raw, apiKeyId: Uuid, exp: int, perms: int)

  function ParseToken(p: Platform, token: string): Result<ParsedToken> {
    var fields := RawFields(token);
    if fields.Err? then Err(fields.code)
    else
      var raw := fields.value;
      if |raw.id| != 26 || DecodeId(raw.id).None? then Err("invalid_id_encoding")
      else if p.readInt(raw.exp, 36).None? then Err("invalid_exp_encoding")
      else if p.readInt(raw.perms, 16).None? then Err("invalid_perms_encoding")
      else
        var perms := p.readInt(raw.perms, 16).value;
        if perms < 0 || perms > 0x3F then Err("invalid_perms_value")
        else Ok(ParsedToken(raw, DecodeId(raw.id).value, p.readInt(raw.exp, 36).value, perms))
  }

  /** What the MAC covers: everything but the decryption key. */
  function Message(raw: Raw): string {
    raw.version + "_" + raw.id + "_" + raw.exp + "_" + raw.perms + "_" + raw.auth
  }

  predicate VerifyHmac(p: Platform, masterKey: string, raw: Raw) {
    p.mac(masterKey, Message(raw)) == raw.hmac
  }

  function Signed(p: Platform, masterKey: string, raw: Raw): Raw {
    raw.(hmac := p.mac(masterKey, Message(raw)))
  }

  function EncodeToken(p: Platform, id: Uuid, exp: nat, perms: nat, auth: string, dkey: string, masterKey: string): string
    requires perms < 256
  {
    Render(Signed(p, masterKey, Raw("1", EncodeId(id), B36(exp), Hex2(perms), auth, dkey, "")))
  }

  lemma LowerIsPlain(s: string)
    requires IsLower(s)
    ensures Plain(s)
  {
  }

  /** What the encoder writes is well formed, for any 43-character secrets, underscores included. */
  lemma EncodedIsShaped(p: Platform, id: Uuid, exp: nat, perms: nat, auth: string, dkey: string, masterKey: string)
    requires Sound(p) && perms < 256 && |auth| == AUTH_LEN && |dkey| == DKEY_LEN
    ensures Shaped(Signed(p, masterKey, Raw("1", EncodeId(id), B36(exp), Hex2(perms), auth, dkey, "")))
  {
    IdRoundTrip(id);
    LowerIsPlain(EncodeId(id));
    B36Value(exp);
    NumeralIsPlain(B36(exp), 36);
    Hex2Value(perms);
    NumeralIsPlain(Hex2(perms), 16);
  }

  /**
    Parsing an encoded token returns every field as it went in, decoded and raw, and its MAC is
    accepted; parsing fails exactly when the permissions exceed six bits.
  */
  lemma TokenRoundTrip(p: Platform, id: Uuid, exp: nat, perms: nat, auth: string, dkey: string, masterKey: string)
    requires Sound(p) && perms < 256 && |auth| == AUTH_LEN && |dkey| == DKEY_LEN
    ensures var parsed := ParseToken(p, EncodeToken(p, id, exp, perms, auth, dkey, masterKey));
      && (parsed.Ok? <==> perms <= 0x3F)
      && (parsed.Ok? ==>
        && parsed.value.apiKeyId == id && parsed.value.exp == exp && parsed.value.perms == perms
        && parsed.value.raw == Signed(p, masterKey, Raw("1", EncodeId(id), B36(exp), Hex2(perms), auth, dkey, ""))
        && VerifyHmac(p, masterKey, parsed.value.raw))
  {
    var raw := Signed(p, masterKey, Raw("1", EncodeId(id), B36(exp), Hex2(perms), auth, dkey, ""));
    EncodedIsShaped(p, id, exp, perms, auth, dkey, masterKey);
    RawFieldsOfRender(raw);
    IdRoundTrip(id);
    B36Value(exp);
    Hex2Value(perms);
    hide Shaped, Render, RawFields, IsNumeral, NumeralValue, B36, Hex2, DecodeId, EncodeId;
    assert p.readInt(raw.exp, 36) == Some(NumeralValue(raw.exp, 36));
    assert p.readInt(raw.perms, 16) == Some(NumeralValue(raw.perms, 16));
  }

  lemma MessageText(raw: Raw)
    ensures "hrpv_" + Message(raw) == Prefix(raw) + "_" + raw.auth
  {
    PrefixText(raw);
    hide Prefix;
  }

  /** Two well-formed tokens with the same signed message agree on every signed field. */
  lemma MessageDeterminesFields(a: Raw, b: Raw)
    requires Shaped(a) && Shaped(b) && Message(a) == Message(b)
    ensures a.(dkey := b.dkey, hmac := b.hmac) == b
  {
    MessageText(a);
    MessageText(b);
    SplitOfJoin(["hrpv", a.version, a.id, a.exp, a.perms]);
    SplitOfJoin(["hrpv", b.version, b.id, b.exp, b.perms]);
    hide Join, Split, Message;
    var m := "hrpv_" + Message(a);
    assert m[..|m| - AUTH_LEN - 1] == Prefix(a) && m[..|m| - AUTH_LEN - 1] == Prefix(b);
    assert m[|m| - AUTH_LEN..] == a.auth && m[|m| - AUTH_LEN..] == b.auth;
    hide Prefix, Message, Shaped;
    assert ["hrpv", a.version, a.id, a.exp, a.perms] == ["hrpv", b.version, b.id, b.exp, b.perms];
    FiveEqual(["hrpv", a.version, a.id, a.exp, a.perms], ["hrpv", b.version, b.id, b.exp, b.perms]);
  }

  lemma FiveEqual(x: seq<string>, y: seq<string>)
    requires |x| == 5 && x == y
    ensures x[0] == y[0] && x[1] == y[1] && x[2] == y[2] && x[3] == y[3] && x[4] == y[4]
  {
  }

  /** A token is accepted exactly when it is rendered from well-formed fields that decode. */
  lemma AcceptedIff(p: Platform, token: string)
    ensures ParseToken(p, token).Ok? <==> exists raw :: Shaped(raw) && token == Render(raw) && Decodes(p, raw)
    ensures ParseToken(p, token).Ok? ==>
      var t := ParseToken(p, token).value; Shaped(t.raw) && token == Render(t.raw) && Decodes(p, t.raw)
  {
    if RawFields(token).Ok? {
      RenderOfRawFields(token);
      assert ParseToken(p, token).Ok? <==> Decodes(p, RawFields(token).value);
    }
    forall raw | Shaped(raw) && token == Render(raw) && Decodes(p, raw) ensures ParseToken(p, token).Ok? {
      RawFieldsOfRender(raw);
    }
  }

  predicate Decodes(p: Platform, raw: Raw)
    requires |raw.id| == 26
  {
    && DecodeId(raw.id).Some? && p.readInt(raw.exp, 36).Some? && p.readInt(raw.perms, 16).Some?
    && 0 <= p.readInt(raw.perms, 16).value <= 0x3F
  }

  /** Which refusal a token of five plain fields and three of the right length gets, in the order of the checks. */
  lemma RefusalCodes(p: Platform, raw: Raw)
    requires FixedLengths(raw) && Plain(raw.version) && Plain(raw.id) && Plain(raw.exp) && Plain(raw.perms)
    ensures var parsed, token := ParseToken(p, Render(raw)), Render(raw);
      var idOk := |raw.id| == 26 && DecodeId(raw.id).Some?;
      var exp, perms := p.readInt(raw.exp, 36), p.readInt(raw.perms, 16);
      && (|token| < 149 ==> parsed == Err("invalid_format"))
      && (|token| >= 149 && raw.version != "1" ==> parsed == Err("unsupported_version"))
      && (|token| >= 149 && raw.version == "1" && !idOk ==> parsed == Err("invalid_id_encoding"))
      && (|token| >= 149 && raw.version == "1" && idOk && exp.None? ==> parsed == Err("invalid_exp_encoding"))
      && (|token| >= 149 && raw.version == "1" && idOk && exp.Some? && perms.None? ==> parsed == Err("invalid_perms_encoding"))
      && (|token| >= 149 && raw.version == "1" && idOk && exp.Some? && perms.Some? && !(0 <= perms.value <= 63) ==>
        parsed == Err("invalid_perms_value"))
  {
    RenderedLayout(raw);
    PrefixText(raw);
    assert StartsWith(Render(raw), "hrpv_");
    SplitOfJoin(["hrpv", raw.version, raw.id, raw.exp, raw.perms]);
    hide Render, Join, Split, StartsWith, DecodeId;
  }

  lemma ForeignPrefix(p: Platform, token: string)
    requires |token| < 5 || token[..5] != "hrpv_"
    ensures ParseToken(p, token) == Err("invalid_prefix")
  {
  }
}
