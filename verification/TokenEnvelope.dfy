/**
 The bearer form of an admission token: version, key id and MAC in base64url; and what
 issuing, reconstructing and verifying a bearer mean. The MAC and the digest are functions
 about which nothing is assumed but, where it says so, that the digest has no collisions.
 */
module TokenEnvelope {
  import opened RoomState
  import opened Bytes
  import opened Base64Url
  import opened SignedForms

  predicate Alnum(c: Byte) {
    65 <= c <= 90 || 97 <= c <= 122 || 48 <= c <= 57
  }

  /** Up to 64 letters, digits, dots, underscores and dashes, the first a letter or digit. */
  predicate ValidKeyId(k: Data) {
    && 1 <= |k| <= 64 && Alnum(k[0])
    && forall i :: 1 <= i < |k| ==> Alnum(k[i]) || k[i] == 46 || k[i] == 95 || k[i] == 45
  }

  function Envelope(keyId: Data, mac: Data): Data {
    [1] + BigEndian(|keyId|, 2) + keyId + mac
  }

  function EncodeRaw(keyId: Data, mac: Data): Data {
    Encode(Envelope(keyId, mac))
  }

  function DecodeRaw(raw: Data): Option<(Data, Data)> {
    var decoded := Decode(raw);
    if decoded.None? || |decoded.value| < 36 || decoded.value[0] != 1 then None
    else
      var d := decoded.value;
      var n := Number(d[1..3]);
      if n < 1 || n > 64 || |d| != 3 + n + 32 then None
      else if !ValidKeyId(d[3..3 + n]) then None
      else Some((d[3..3 + n], d[3 + n..]))
  }

  /** Reading an envelope back gives the key id and the MAC. */
  lemma DecodeRawOfEncodeRaw(keyId: Data, mac: Data)
    requires ValidKeyId(keyId) && |mac| == 32
    ensures DecodeRaw(EncodeRaw(keyId, mac)) == Some((keyId, mac))
  {
    var d := Envelope(keyId, mac);
    DecodeEncode(d);
    Widths();
    NumberOfBigEndian(|keyId|, 2);
    assert d[1..3] == BigEndian(|keyId|, 2);
    assert d[3..3 + |keyId|] == keyId && d[3 + |keyId|..] == mac;
  }

  lemma EnvelopeOf(d: Data)
    requires 36 <= |d| && d[0] == 1 && |d| == 3 + Number(d[1..3]) + 32
    ensures Envelope(d[3..3 + Number(d[1..3])], d[3 + Number(d[1..3])..]) == d
  {
    BigEndianOfNumber(d[1..3]);
    var n := Number(d[1..3]);
    assert d == d[..1] + d[1..3] + d[3..3 + n] + d[3 + n..];
    assert d[..1] == [1];
  }

  /** What reads as an envelope is one, up to line breaks: a raw text with none of them is the
      only one that decodes to its key id and MAC. */
  lemma EncodeRawOfDecodeRaw(raw: Data)
    requires DecodeRaw(raw).Some?
    ensures EncodeRaw(DecodeRaw(raw).value.0, DecodeRaw(raw).value.1) == Stripped(raw)
    ensures EncodeRaw(DecodeRaw(raw).value.0, DecodeRaw(raw).value.1) == raw <==> 10 !in raw && 13 !in raw
  {
    EncodeDecode(raw);
    EnvelopeOf(Decode(raw).value);
    StrippedSame(raw);
  }

  // ------------------------------------------------------------------ issue, reconstruct, verify

  /** The keyring: which keys are configured, the keyed MAC over the signed form, and SHA-256. */
  datatype Keyring = Keyring(keys: set<Data>, mac: (Data, Data) -> Data, digest: Data -> Data)

  /** The MAC has 32 bytes and different texts have different digests. */
  ghost predicate Sound(k: Keyring) {
    && (forall key, m :: |k.mac(key, m)| == 32)
    && (forall a, b :: k.digest(a) == k.digest(b) ==> a == b)
  }

  datatype DeliveryFields = DeliveryFields(claims: Claims, nonce: Data, hash: Data)

  /** The zero time, at the start of year 1. */
  const ZERO_TIME: int := -62_135_596_800_000_000_000

  predicate ValidClaims(c: Claims) {
    ValidKeyId(c.keyId) && c.policyId != [] && 0 < c.version && c.entryId != []
    && c.issuedAt != ZERO_TIME && c.issuedAt < c.expiresAt
  }

  function Signature(k: Keyring, f: DeliveryFields): Data
    requires Encodable(f.claims, f.nonce)
  {
    k.mac(f.claims.keyId, Written(TokenPieces(f.claims, f.nonce)))
  }

  function Bearer(k: Keyring, f: DeliveryFields): Data
    requires Encodable(f.claims, f.nonce)
  {
    EncodeRaw(f.claims.keyId, Signature(k, f))
  }

  predicate VerifyFields(k: Keyring, f: DeliveryFields)
    requires Encodable(f.claims, f.nonce)
  {
    ValidClaims(f.claims) && f.claims.keyId in k.keys && k.digest(Bearer(k, f)) == f.hash
  }

  function Reconstruct(k: Keyring, f: DeliveryFields): Option<Data>
    requires Encodable(f.claims, f.nonce)
  {
    if VerifyFields(k, f) then Some(Bearer(k, f)) else None
  }

  predicate Verify(k: Keyring, raw: Data, f: DeliveryFields)
    requires Encodable(f.claims, f.nonce)
  {
    var d := DecodeRaw(raw);
    && d.Some? && d.value.0 == f.claims.keyId
    && VerifyFields(k, f)
    && Signature(k, f) == d.value.1
    && k.digest(raw) == f.hash
  }

  function Issue(k: Keyring, c: Claims, nonce: Data): DeliveryFields
    requires Encodable(c, nonce)
  {
    DeliveryFields(c, nonce, k.digest(EncodeRaw(c.keyId, k.mac(c.keyId, Written(TokenPieces(c, nonce))))))
  }

  /** Verification accepts exactly one text for a stored record, the bearer that reconstruction
      gives, line breaks included; and a record that does not reconstruct accepts nothing. */
  lemma VerifyAcceptsOnlyTheBearer(k: Keyring, raw: Data, f: DeliveryFields)
    requires Sound(k) && Encodable(f.claims, f.nonce)
    ensures Verify(k, raw, f) <==> Reconstruct(k, f) == Some(raw)
  {
    if VerifyFields(k, f) {
      DecodeRawOfEncodeRaw(f.claims.keyId, Signature(k, f));
      assert k.digest(raw) == k.digest(Bearer(k, f)) ==> raw == Bearer(k, f);
    }
  }

  /** A freshly issued record reconstructs its bearer, which verifies. */
  lemma IssuedVerifies(k: Keyring, c: Claims, nonce: Data)
    requires Sound(k) && Encodable(c, nonce) && ValidClaims(c) && c.keyId in k.keys
    ensures var f := Issue(k, c, nonce);
            Reconstruct(k, f) == Some(Bearer(k, f)) && Verify(k, Bearer(k, f), f)
  {
    VerifyAcceptsOnlyTheBearer(k, Bearer(k, Issue(k, c, nonce)), Issue(k, c, nonce));
  }

  /** A record reconstructs exactly when its claims are complete, its key is configured and its hash
      is that of the bearer; the bearer is then the MAC of the signed form under that key. */
  lemma ReconstructAnswers(k: Keyring, f: DeliveryFields)
    requires Encodable(f.claims, f.nonce)
    ensures var c := f.claims;
            var mac := k.mac(c.keyId, Written(TokenPieces(c, f.nonce)));
            && (Reconstruct(k, f).Some? <==>
                  && 1 <= |c.keyId| <= 64 && ValidKeyId(c.keyId) && c.policyId != [] && 1 <= c.version && c.entryId != []
                  && c.issuedAt < c.expiresAt && c.issuedAt != -62_135_596_800_000_000_000
                  && c.keyId in k.keys && f.hash == k.digest(EncodeRaw(c.keyId, mac)))
            && (Reconstruct(k, f).Some? ==> Reconstruct(k, f).value == EncodeRaw(c.keyId, mac))
  {
  }

  /** The layout of an envelope: the version, two bytes of length, the key id and the MAC. */
  lemma EnvelopeLayout(keyId: Data, mac: Data)
    requires |keyId| < 65536
    ensures var d := Envelope(keyId, mac);
            && |d| == 3 + |keyId| + |mac| && d[0] == 1 && (d[1] as int) * 256 + d[2] == |keyId|
            && d[3..3 + |keyId|] == keyId && d[3 + |keyId|..] == mac
  {
    var d := Envelope(keyId, mac);
    assert BigEndian(|keyId|, 2) == BigEndian(|keyId| / 256, 1) + [|keyId| % 256];
    assert d[3..3 + |keyId|] == keyId && d[3 + |keyId|..] == mac;
  }
}
