/** The few shared datatypes: absent values, error returns, bytes and chunk names. */
module Prelude {

  datatype Option<+T> = None | Some(value: T)

  datatype Result<+T, +E> = Ok(value: T) | Err(error: E)

  type Byte = b: nat | b < 256

  type Bytes = seq<Byte>

  type Digest = s: seq<Byte> | |s| == 20 witness seq(20, i => 0)

  /** A SHA-1: the name a chunk is stored and requested under. */
  datatype Sha = ChunkHash(digest: Digest)

  const U32: nat := 0x1_0000_0000
  const U64: nat := 0x1_0000_0000_0000_0000

  /** What fits in memory: its length is a 64-bit word. */
  type Buffer = b: Bytes | |b| < U64 witness []

  function Min(a: int, b: int): int { if a <= b then a else b }

  function Max(a: int, b: int): int { if a <= b then b else a }

  lemma ConcatAssociative<T>(a: seq<T>, b: seq<T>, c: seq<T>)
    ensures (a + b) + c == a + (b + c)
  {}
}
