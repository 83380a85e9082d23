/** Clips, clipboard items and the check every received clip must pass (src/protocol.rs, src/clipboard/mod.rs). */
module Clips {
  import opened Basics
  import Text

  /** SHA-256 in hex and the MIME sniffer are not computed here: they are any two functions. */
  datatype Env = Env(hash: Bytes -> string, mime: Bytes -> string, ttl: nat)

  predicate IsHash(h: string) {
    |h| == 64 && forall c :: c in h ==> Text.IsHexDigit(c)
  }

  /** All that is assumed of the hash: it prints as 64 hexadecimal digits. */
  ghost predicate HashLaw(env: Env) {
    forall data: Bytes :: IsHash(env.hash(data))
  }

  datatype ClipMeta = ClipMeta(originId: string, seqno: u64, mime: string, hash: string, size: nat, name: string)

  datatype Clip = Clip(meta: ClipMeta, data: Bytes)

  datatype ProtoError =
    | BadMagic
    | BadVersion(version: byte)
    | TooLarge
    | BadMeta
    | SizeMismatch(got: nat, want: nat)
    | HashMismatch
    | UnknownType(code: byte)
    | UnexpectedEof
    | Json

  /** A clipboard item.  Its `path`, a local projection that never reaches the wire, is left out. */
  datatype Item = Item(mime: string, data: Bytes, hash: string, name: string)

  function HashOf(env: Env, item: Item): string {
    if item.hash == "" then env.hash(item.data) else item.hash
  }

  function VerifyClip(env: Env, clip: Clip): Result<(), ProtoError> {
    if |clip.data| > MAX_CLIP || clip.meta.size > MAX_CLIP then
      Err(TooLarge)
    else if clip.meta.size != |clip.data| then
      Err(SizeMismatch(|clip.data|, clip.meta.size))
    else if clip.meta.hash == "" || env.hash(clip.data) != clip.meta.hash then
      Err(HashMismatch)
    else
      Ok(())
  }

  /** What integrity means for a clip, an item about to be used, and an item on the clipboard. */
  ghost predicate Sound(env: Env, clip: Clip) {
    clip.meta.size == |clip.data| <= MAX_CLIP && clip.meta.hash == env.hash(clip.data)
  }

  ghost predicate SoundItem(env: Env, item: Item) {
    |item.data| <= MAX_CLIP && item.hash == env.hash(item.data)
  }

  ghost predicate LocalItem(env: Env, item: Item) {
    item.hash == "" || item.hash == env.hash(item.data)
  }

  lemma VerifiedIsSound(env: Env, clip: Clip)
    requires HashLaw(env)
    ensures VerifyClip(env, clip).Ok? <==> Sound(env, clip)
  {
    assert |env.hash(clip.data)| == 64;
  }
}
