/**
 * Clip bodies (src/protocol.rs) and the encrypted envelopes that carry them through the relay
 * (src/group.rs).  JSON, key derivation and the AEAD are functions of which only laws are assumed;
 * the random nonce is an input.
 */
module Envelopes {
  import opened Basics
  import opened Clips
  import opened Frames

  // Clip bodies.

  function Normalized(clip: Clips.Clip): Clips.Clip {
    clip.(meta := clip.meta.(size := |clip.data|))
  }

  method EncodeClipBody(json: Codec<ClipMeta>, clip: Clips.Clip) returns (r: Result<Bytes, ProtoError>)
    ensures r == Body(json, clip)
  {
    if |clip.data| > MAX_CLIP {
      return Err(ProtoError.TooLarge);
    }
    var meta := clip.meta;
    meta := meta.(size := |clip.data|);
    var metaBytes := json.encode(meta);
    if |metaBytes| > MAX_META {
      return Err(BadMeta);
    }
    var payload := BigEndian(|metaBytes|, 2);
    payload := payload + metaBytes;
    payload := payload + clip.data;
    return Ok(payload);
  }

  function Body(json: Codec<ClipMeta>, clip: Clips.Clip): Result<Bytes, ProtoError> {
    var meta := json.encode(Normalized(clip).meta);
    if |clip.data| > MAX_CLIP then Err(ProtoError.TooLarge)
    else if |meta| > MAX_META then Err(BadMeta)
    else Ok(BigEndian(|meta|, 2) + meta + clip.data)
  }

  function DecodeClip(json: Codec<ClipMeta>, payload: Bytes): Result<Clips.Clip, ProtoError> {
    if |payload| < 2 then Err(BadMeta) else
    var n := FromBigEndian(payload[..2]);
    if n == 0 || n > MAX_META || 2 + n > |payload| then Err(BadMeta) else
    match json.decode(payload[2..2 + n])
    case None => Err(ProtoError.Json)
    case Some(meta) =>
      var data := payload[2 + n..];
      if meta.size != |data| then Err(SizeMismatch(|data|, meta.size))
      else if |data| > MAX_CLIP then Err(ProtoError.TooLarge)
      else Ok(Clips.Clip(meta, data))
  }

  /** `as u16` keeps the length of the meta. */
  lemma FitsTwoBytes(n: nat)
    requires n <= MAX_META
    ensures FromBigEndian(BigEndian(n, 2)) == n
  {
    NumberRoundTrip(n, 2);
    assert Power(1) == 256;
  }

  lemma Parts(a: Bytes, b: Bytes, c: Bytes, k: nat)
    requires k <= |a + b + c|
    ensures var cut := (a + b + c)[..k];
            && |cut| == k && (|a| <= k ==> cut[..|a|] == a)
            && (|a| + |b| <= k ==> cut[|a|..|a| + |b|] == b && cut[|a| + |b|..] == c[..k - |a| - |b|])
  {
  }

  /** A body cut to its first k bytes, and the whole of it. */
  lemma DecodeOfCut(json: Codec<ClipMeta>, clip: Clips.Clip, k: nat)
    requires CodecLaw(json) && Body(json, clip).Ok? && k <= |Body(json, clip).value|
    ensures DecodeClip(json, Body(json, clip).value[..k]) ==
              var meta := json.encode(Normalized(clip).meta);
              if k < 2 + |meta| then Err(BadMeta)
              else if k < |Body(json, clip).value| then Err(SizeMismatch(k - 2 - |meta|, |clip.data|))
              else Ok(Normalized(clip))
  {
    var meta := json.encode(Normalized(clip).meta);
    FitsTwoBytes(|meta|);
    hide BigEndian, FromBigEndian;
    assert json.decode(meta) == Some(Normalized(clip).meta);
    Parts(BigEndian(|meta|, 2), meta, clip.data, k);
    assert clip.data[..|clip.data|] == clip.data;
  }

  /** Decoding inverts encoding, up to the size that encoding fills in, and rejects every strict prefix. */
  lemma BodyRoundTrip(json: Codec<ClipMeta>, clip: Clips.Clip, body: Bytes)
    requires CodecLaw(json) && Body(json, clip) == Ok(body)
    ensures DecodeClip(json, body) == Ok(Normalized(clip))
    ensures forall k: nat :: k < |body| ==> DecodeClip(json, body[..k]).Err?
  {
    DecodeOfCut(json, clip, |body|);
    assert body[..|body|] == body;
    forall k: nat | k < |body|
      ensures DecodeClip(json, body[..k]).Err?
    {
      DecodeOfCut(json, clip, k);
    }
  }

  /** The bytes of a body: the length of the meta in two bytes, the meta, the data. */
  lemma BodyLayout(json: Codec<ClipMeta>, clip: Clips.Clip, body: Bytes)
    requires Body(json, clip) == Ok(body)
    ensures var n := |json.encode(clip.meta.(size := |clip.data|))|;
            && n <= 16384 && |body| == 2 + n + |clip.data| && 256 * (body[0] as int) + body[1] as int == n
            && body[2..2 + n] == json.encode(clip.meta.(size := |clip.data|)) && body[2 + n..] == clip.data
  {
    var meta := json.encode(Normalized(clip).meta);
    TwoBytes(BigEndian(|meta|, 2));
    FitsTwoBytes(|meta|);
    hide BigEndian, FromBigEndian;
  }

  lemma TwoBytes(bytes: Bytes)
    requires |bytes| == 2
    ensures FromBigEndian(bytes) == 256 * (bytes[0] as int) + bytes[1] as int
  {
    var first := bytes[..1];
    assert first[..0] == [] && FromBigEndian(first[..0]) == 0;
    assert FromBigEndian(first) == bytes[0] as int;
  }

  /** Which payloads are decoded, and to what. */
  lemma DecodedIff(json: Codec<ClipMeta>, payload: Bytes, clip: Clips.Clip)
    ensures DecodeClip(json, payload) == Ok(clip) <==>
              && |payload| >= 2
              && var n := 256 * (payload[0] as int) + payload[1] as int;
              && 0 < n <= 16384 && 2 + n <= |payload|
              && json.decode(payload[2..2 + n]) == Some(clip.meta)
              && payload[2 + n..] == clip.data
              && clip.meta.size == |clip.data| <= MAX_CLIP
  {
    if |payload| >= 2 {
      TwoBytes(payload[..2]);
    }
    hide FromBigEndian;
  }

  // Envelopes.

  const VERSION_BYTE: byte := 1
  const OVERHEAD: nat := 65

  /** XChaCha20-Poly1305 under the key derived from a group's secret. */
  datatype Aead = Aead(
    encrypt: (Secret, Nonce, Bytes, Bytes) -> Bytes,
    decrypt: (Secret, Nonce, Bytes, Bytes) -> Option<Bytes>)

  /** Decryption undoes encryption and accepts nothing else; the tag is 16 bytes. */
  ghost predicate AeadLaw(aead: Aead) {
    && (forall s, n, ad, m :: |aead.encrypt(s, n, ad, m)| == |m| + 16)
    && (forall s, n, ad, m, c :: aead.decrypt(s, n, ad, c) == Some(m) <==> c == aead.encrypt(s, n, ad, m))
  }

  datatype Opened = Opened(sender: Id, counter: u64, plaintext: Bytes)

  datatype OpenError = Truncated | UnsupportedVersion(version: byte) | NotDecrypted

  function Associated(group: Id, sender: Id, counter: u64): Bytes {
    group + sender + BigEndian(counter, 8)
  }

  function Sealed(
    aead: Aead, secret: Secret, group: Id, sender: Id, counter: u64, nonce: Nonce, plaintext: Bytes): Bytes
  {
    [VERSION_BYTE] + sender + BigEndian(counter, 8) + nonce
    + aead.encrypt(secret, nonce, Associated(group, sender, counter), plaintext)
  }

  method Seal(aead: Aead, secret: Secret, group: Id, sender: Id, counter: u64, nonce: Nonce, plaintext: Bytes)
    returns (out: Bytes)
    ensures out == Sealed(aead, secret, group, sender, counter, nonce, plaintext)
  {
    var ad := group;
    ad := ad + sender;
    ad := ad + BigEndian(counter, 8);
    var ct := aead.encrypt(secret, nonce, ad, plaintext);
    out := [VERSION_BYTE];
    out := out + sender;
    out := out + BigEndian(counter, 8);
    out := out + nonce;
    out := out + ct;
  }

  function Open(aead: Aead, secret: Secret, group: Id, envelope: Bytes): Result<Opened, OpenError> {
    if |envelope| < 65 then Err(Truncated)
    else if envelope[0] != VERSION_BYTE then Err(UnsupportedVersion(envelope[0]))
    else
      var sender: Id := envelope[1..17];
      var counter := FromBigEndian(envelope[17..25]);
      EightBytesAreU64(envelope[17..25]);
      var nonce: Nonce := envelope[25..49];
      match aead.decrypt(secret, nonce, Associated(group, sender, counter), envelope[49..])
      case None => Err(NotDecrypted)
      case Some(plaintext) => Ok(Opened(sender, counter, plaintext))
  }

  /** What is refused before anything is decrypted. */
  lemma UnopenedEnvelopes(aead: Aead, secret: Secret, group: Id, envelope: Bytes)
    ensures Open(aead, secret, group, envelope) == Err(Truncated) <==> |envelope| < 65
    ensures |envelope| >= 65 ==>
              (Open(aead, secret, group, envelope) == Err(UnsupportedVersion(envelope[0])) <==> envelope[0] != 1)
  {
    hide FromBigEndian, BigEndian;
  }

  lemma PowerOfEight()
    ensures Power(8) == U64_MAX + 1
  {
    assert Power(2) == 0x1_0000 && Power(4) == 0x1_0000_0000 && Power(6) == 0x1_0000_0000_0000;
  }

  lemma EightBytesAreU64(bytes: Bytes)
    requires |bytes| == 8
    ensures FromBigEndian(bytes) <= U64_MAX
  {
    BigEndianIsBounded(bytes);
    PowerOfEight();
  }

  lemma EightBytesRoundTrip(n: u64)
    ensures FromBigEndian(BigEndian(n, 8)) == n
  {
    NumberRoundTrip(n, 8);
    PowerOfEight();
  }

  lemma EnvelopeFields(sender: Id, counter: Bytes, nonce: Nonce, ct: Bytes)
    requires |counter| == 8
    ensures var envelope := [VERSION_BYTE] + sender + counter + nonce + ct;
            && envelope[0] == VERSION_BYTE && envelope[1..17] == sender && envelope[17..25] == counter
            && envelope[25..49] == nonce && envelope[49..] == ct
  {
  }

  /** Opening with the same secret and group gives back sender, counter and text; the envelope is 65 bytes longer. */
  lemma OpenInvertsSeal(
    aead: Aead, secret: Secret, group: Id, sender: Id, counter: u64, nonce: Nonce, plaintext: Bytes)
    requires AeadLaw(aead)
    ensures var envelope := Sealed(aead, secret, group, sender, counter, nonce, plaintext);
            && |envelope| == |plaintext| + OVERHEAD
            && Open(aead, secret, group, envelope) == Ok(Opened(sender, counter, plaintext))
  {
    var ad := Associated(group, sender, counter);
    var ct := aead.encrypt(secret, nonce, ad, plaintext);
    assert |ct| == |plaintext| + 16 && aead.decrypt(secret, nonce, ad, ct) == Some(plaintext);
    EnvelopeFields(sender, BigEndian(counter, 8), nonce, ct);
    EightBytesRoundTrip(counter);
    hide BigEndian, FromBigEndian, Associated;
  }

  /** Conversely, what opens was sealed, for this group, with the sender and counter it names. */
  lemma OpenedWasSealed(aead: Aead, secret: Secret, group: Id, envelope: Bytes) returns (nonce: Nonce)
    requires AeadLaw(aead) && Open(aead, secret, group, envelope).Ok?
    ensures var o := Open(aead, secret, group, envelope).value;
            envelope == Sealed(aead, secret, group, o.sender, o.counter, nonce, o.plaintext)
  {
    nonce := envelope[25..49];
    BytesRoundTrip(envelope[17..25]);
    hide BigEndian, FromBigEndian, Associated;
    assert envelope == [envelope[0]] + envelope[1..17] + envelope[17..25] + envelope[25..49] + envelope[49..];
  }

  /**
   * The bytes of an envelope: 1, the sender, the counter, the nonce and a ciphertext made for the group and
   * the sender and counter bytes before it.
   */
  lemma EnvelopeLayout(
    aead: Aead, secret: Secret, group: Id, sender: Id, counter: u64, nonce: Nonce, plaintext: Bytes)
    requires AeadLaw(aead)
    ensures var envelope := Sealed(aead, secret, group, sender, counter, nonce, plaintext);
            && |envelope| == 65 + |plaintext|
            && envelope[0] == 1 && envelope[1..17] == sender && FromBigEndian(envelope[17..25]) == counter
            && envelope[25..49] == nonce
            && aead.decrypt(secret, nonce, group + envelope[1..25], envelope[49..]) == Some(plaintext)
  {
    var envelope := Sealed(aead, secret, group, sender, counter, nonce, plaintext);
    var ad := Associated(group, sender, counter);
    EnvelopeFields(sender, BigEndian(counter, 8), nonce, aead.encrypt(secret, nonce, ad, plaintext));
    EightBytesRoundTrip(counter);
    hide BigEndian, FromBigEndian, Sealed;
    assert envelope[1..25] == envelope[1..17] + envelope[17..25];
    assert group + envelope[1..25] == ad;
    assert aead.decrypt(secret, nonce, ad, envelope[49..]) == Some(plaintext);
  }

  /**
   * What an AEAD is assumed to give for one ciphertext: it decrypts under a single secret, nonce and
   * associated data.  No cipher can give it for all, there being more associated data than ciphertexts.
   */
  ghost predicate Authentic(aead: Aead, ct: Bytes) {
    forall s, n, ad, s', n', ad' ::
      aead.decrypt(s, n, ad, ct).Some? && aead.decrypt(s', n', ad', ct).Some? ==> s == s' && n == n' && ad == ad'
  }

  /**
   * An envelope opens only as it was sealed: with any byte before its ciphertext changed, under another
   * secret or in another group it is refused.
   */
  lemma OpensOnlyAsSealed(
    aead: Aead, secret: Secret, group: Id, sender: Id, counter: u64, nonce: Nonce, plaintext: Bytes,
    secret': Secret, group': Id, altered: Bytes)
    requires AeadLaw(aead)
    requires var envelope := Sealed(aead, secret, group, sender, counter, nonce, plaintext);
             && |altered| == |envelope| >= 49 && altered[49..] == envelope[49..]
             && Authentic(aead, envelope[49..])
    ensures Open(aead, secret', group', altered) ==
              if altered[0] != 1 then Err(UnsupportedVersion(altered[0]))
              else if altered == Sealed(aead, secret, group, sender, counter, nonce, plaintext)
                && secret' == secret && group' == group
              then Ok(Opened(sender, counter, plaintext))
              else Err(NotDecrypted)
  {
    var envelope := Sealed(aead, secret, group, sender, counter, nonce, plaintext);
    EnvelopeLayout(aead, secret, group, sender, counter, nonce, plaintext);
    OpenInvertsSeal(aead, secret, group, sender, counter, nonce, plaintext);
    BytesRoundTrip(altered[17..25]);
    EightBytesAreU64(altered[17..25]);
    hide Sealed, BigEndian, FromBigEndian;
    var ad := Associated(group', altered[1..17], FromBigEndian(altered[17..25]));
    assert ad == group' + altered[1..17] + altered[17..25];
    if aead.decrypt(secret', altered[25..49], ad, altered[49..]).Some? {
      HeadersDiffer(group, envelope, group', altered);
    }
  }

  lemma HeadersDiffer(group: Id, envelope: Bytes, group': Id, altered: Bytes)
    requires |altered| == |envelope| >= 49 && altered[49..] == envelope[49..] && altered[25..49] == envelope[25..49]
    requires group' + altered[1..17] + altered[17..25] == group + envelope[1..25]
    ensures group' == group && altered[1..] == envelope[1..]
  {
    var ad, ad' := group + envelope[1..25], group' + altered[1..17] + altered[17..25];
    assert ad[..16] == group && ad'[..16] == group';
    assert altered[1..25] == altered[1..17] + altered[17..25];
    assert ad[16..] == envelope[1..25] && ad'[16..] == altered[1..25];
    assert forall b: Bytes :: |b| >= 49 ==> b[1..] == b[1..25] + b[25..49] + b[49..];
  }

  // From clip to clip.

  /** No encodable clip is too large for a frame, in the clear or sealed. */
  lemma BodiesFitFrames(json: Codec<ClipMeta>, clip: Clips.Clip)
    requires Body(json, clip).Ok?
    ensures |Body(json, clip).value| + OVERHEAD <= MAX_FRAME
  {
  }

  /**
   * Between nodes: the frame written for a sound clip is read back, from whatever follows it, as that
   * clip, and verifies.
   */
  lemma ClipsCrossTheLan(env: Env, json: Codec<ClipMeta>, clip: Clips.Clip, body: Bytes, more: Bytes)
    requires CodecLaw(json) && HashLaw(env) && Sound(env, clip) && Body(json, clip) == Ok(body)
    ensures |body| <= MAX_FRAME && Read(LAN, Encoded(LAN, Type.Clip, body) + more) == (Ok((Type.Clip, body)), more)
    ensures DecodeClip(json, body) == Ok(clip) && VerifyClip(env, clip).Ok?
  {
    BodiesFitFrames(json, clip);
    BothAreLawful();
    ReadOfEncoded(LAN, Type.Clip, body, more);
    BodyRoundTrip(json, clip, body);
    VerifiedIsSound(env, clip);
  }

  /** Through the relay: the same, sealed by one member of a group and opened by another. */
  lemma ClipsCrossTheRelay(
    env: Env, json: Codec<ClipMeta>, aead: Aead, secret: Secret, group: Id, sender: Id, counter: u64, nonce: Nonce,
    clip: Clips.Clip, body: Bytes, more: Bytes)
    requires CodecLaw(json) && AeadLaw(aead) && HashLaw(env) && Sound(env, clip) && Body(json, clip) == Ok(body)
    ensures var envelope := Sealed(aead, secret, group, sender, counter, nonce, body);
            && |envelope| <= MAX_FRAME
            && Read(RELAY, Encoded(RELAY, RelayType.Data, envelope) + more) == (Ok((RelayType.Data, envelope)), more)
            && Open(aead, secret, group, envelope) == Ok(Opened(sender, counter, body))
    ensures DecodeClip(json, body) == Ok(clip) && VerifyClip(env, clip).Ok?
  {
    BodiesFitFrames(json, clip);
    OpenInvertsSeal(aead, secret, group, sender, counter, nonce, body);
    BothAreLawful();
    ReadOfEncoded(RELAY, RelayType.Data, Sealed(aead, secret, group, sender, counter, nonce, body), more);
    BodyRoundTrip(json, clip, body);
    VerifiedIsSound(env, clip);
  }
}
