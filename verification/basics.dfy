/** Datatypes and byte strings shared by every other module. */
module Basics {

  datatype Option<+T> = None | Some(value: T)

  datatype Result<+T, +E> = Ok(value: T) | Err(error: E)

  /** JSON written and read; what is assumed of it is the round trip, and that no JSON text is empty. */
  datatype Codec<!T> = Codec(encode: T -> Bytes, decode: Bytes -> Option<T>)

  ghost predicate CodecLaw<T(!new)>(codec: Codec<T>) {
    forall x: T :: codec.encode(x) != [] && codec.decode(codec.encode(x)) == Some(x)
  }

  type byte = x: int | 0 <= x < 256

  type Bytes = seq<byte>

  const U64_MAX: nat := 0xFFFF_FFFF_FFFF_FFFF

  type u64 = x: int | 0 <= x <= U64_MAX

  const MAX_CLIP: nat := 10 * 1024 * 1024
  const MAX_FRAME: nat := MAX_CLIP + 64 * 1024
  const MAX_META: nat := 16 * 1024

  /** Group ids and envelope senders, nonces, group keys. */
  type Id = b: Bytes | |b| == 16 witness seq(16, _ => 0)
  type Nonce = b: Bytes | |b| == 24 witness seq(24, _ => 0)
  type Secret = b: Bytes | |b| == 32 witness seq(32, _ => 0)
}
