/** The on-disk form of one chunk: eight bytes of little-endian plaintext length, the 20-byte
    SHA-1 of the plaintext, and a checksummed zstd body. */
module Frame {
  import opened Prelude

  const MAX_PLAIN_LEN: nat := 64 * 1024 * 1024
  const FRAME_HEADER_LEN: nat := 8 + 20

  /** The foreign code a frame is built from. `decompress` takes the capacity of the output
      buffer it allocates up front; it is a partial function so that every call of it has to
      show that the capacity is within the cap. */
  datatype RawCodec = RawCodec(
    sha1: Bytes -> Sha,
    compress: Bytes -> Bytes,
    decompress: (Bytes, nat) --> Option<Bytes>)

  ghost predicate Lawful(c: RawCodec) {
    && (forall b: Bytes, cap: nat | cap <= MAX_PLAIN_LEN :: c.decompress.requires(b, cap))
    && (forall p: Bytes | |p| <= MAX_PLAIN_LEN :: c.decompress(c.compress(p), |p|) == Some(p))
  }

  const ZERO_DIGEST: Digest := seq(20, i => 0)
  const IDENTITY := RawCodec(
    (p: Bytes) => ChunkHash(ZERO_DIGEST),
    (p: Bytes) => p,
    (b: Bytes, cap: nat) requires cap <= MAX_PLAIN_LEN => if |b| <= cap then Some(b) else None)

  type Codec = c: RawCodec | Lawful(c) ghost witness IDENTITY

  function LittleEndian(n: nat, width: nat): (b: Bytes)
    ensures |b| == width
  {
    if width == 0 then [] else [n % 256] + LittleEndian(n / 256, width - 1)
  }

  function FromLittleEndian(b: Bytes): nat {
    if b == [] then 0 else b[0] + 256 * FromLittleEndian(b[1..])
  }

  function Power256(width: nat): (p: nat)
    ensures p >= 1
  {
    if width == 0 then 1 else 256 * Power256(width - 1)
  }

  lemma {:induction false} FromLittleEndianInverts(n: nat, width: nat)
    requires n < Power256(width)
    ensures FromLittleEndian(LittleEndian(n, width)) == n
  {
    if width > 0 {
      FromLittleEndianInverts(n / 256, width - 1);
      var b := LittleEndian(n, width);
      assert b[1..] == LittleEndian(n / 256, width - 1);
    }
  }

  lemma {:induction false} LittleEndianInverts(b: Bytes)
    ensures LittleEndian(FromLittleEndian(b), |b|) == b
  {
    if b != [] {
      LittleEndianInverts(b[1..]);
      assert FromLittleEndian(b) % 256 == b[0];
      assert FromLittleEndian(b) / 256 == FromLittleEndian(b[1..]);
    }
  }

  lemma Grows(d: nat, a: nat, b: nat)
    requires a <= b
    ensures d * a <= d * b
  {
    assert d * b == d * a + d * (b - a);
  }

  lemma QuotientIs(x: nat, d: nat, q: nat, r: nat)
    requires d >= 1 && x == d * q + r && r < d
    ensures x / d == q
  {
    var y, s := x / d, x % d;
    assert x == d * y + s;
    if q > y {
      Grows(d, y + 1, q);
    } else if q < y {
      Grows(d, q + 1, y);
    }
  }

  lemma DivideTwice(n: nat, d: nat)
    requires d >= 1
    ensures n / 256 / d == n / (256 * d)
  {
    var q, r := n / (256 * d), n % (256 * d);
    assert n == 256 * (d * q) + r;
    assert n / 256 == d * q + r / 256;
    assert r / 256 < d;
    QuotientIs(n / 256, d, q, r / 256);
  }

  /** Byte `k` is digit `k` of the number to base 256, the lowest first. */
  lemma {:induction false} LittleEndianAt(n: nat, width: nat, k: nat)
    requires k < width
    ensures LittleEndian(n, width)[k] == n / Power256(k) % 256
  {
    if k > 0 {
      LittleEndianAt(n / 256, width - 1, k - 1);
      DivideTwice(n, Power256(k - 1));
    }
  }

  lemma U64IsEightBytes()
    ensures Power256(8) == U64
  {
    assert Power256(4) == 0x1_0000_0000;
  }

  function EncodeFrameAs(c: Codec, plain: Bytes, digest: Sha): Bytes {
    LittleEndian(|plain| % U64, 8) + digest.digest + c.compress(plain)
  }

  function EncodeFrame(c: Codec, plain: Bytes): Bytes {
    EncodeFrameAs(c, plain, c.sha1(plain))
  }

  function DecodeFrame(c: Codec, frame: Bytes): Option<(Sha, Bytes)> {
    if |frame| < 8 then None
    else
      var plainLen := FromLittleEndian(frame[..8]);
      if plainLen > MAX_PLAIN_LEN then None
      else if |frame| < FRAME_HEADER_LEN then None
      else
        match c.decompress(frame[FRAME_HEADER_LEN..], plainLen)
        case Some(plain) =>
          if |plain| != plainLen then None else Some((ChunkHash(frame[8..FRAME_HEADER_LEN]), plain))
        case None => None
  }

  /** A well-formed frame: the header of `plain` and `digest`, and a body that decompresses to
      `plain`. */
  ghost predicate FrameOf(c: Codec, frame: Bytes, digest: Sha, plain: Bytes) {
    && |plain| <= 67_108_864
    && |frame| >= 28
    && frame[..8] == LittleEndian(|plain|, 8)
    && frame[8..28] == digest.digest
    && c.decompress(frame[28..], |plain|) == Some(plain)
  }

  /** Exactly which byte strings decode, and to what. */
  lemma DecodesIff(c: Codec, frame: Bytes, digest: Sha, plain: Bytes)
    ensures DecodeFrame(c, frame) == Some((digest, plain)) <==> FrameOf(c, frame, digest, plain)
  {
    U64IsEightBytes();
    if FrameOf(c, frame, digest, plain) {
      FromLittleEndianInverts(|plain|, 8);
    }
    if DecodeFrame(c, frame) == Some((digest, plain)) {
      LittleEndianInverts(frame[..8]);
    }
  }

  lemma DecodesConcatenation(c: Codec, digest: Sha, plain: Bytes, body: Bytes)
    requires |plain| <= MAX_PLAIN_LEN && c.decompress(body, |plain|) == Some(plain)
    ensures DecodeFrame(c, LittleEndian(|plain|, 8) + digest.digest + body) == Some((digest, plain))
  {
    hide DecodeFrame, LittleEndian;
    var header := LittleEndian(|plain|, 8) + digest.digest;
    var frame := header + body;
    assert frame[FRAME_HEADER_LEN..] == body;
    assert frame[..8] == header[..8] == LittleEndian(|plain|, 8);
    assert frame[8..FRAME_HEADER_LEN] == header[8..] == digest.digest;
    DecodesIff(c, frame, digest, plain);
  }

  /** The round trip holds for every plaintext up to 64 MiB, and for no other. */
  lemma RoundTripIff(c: Codec, plain: Bytes)
    ensures DecodeFrame(c, EncodeFrame(c, plain)) == Some((c.sha1(plain), plain)) <==> |plain| <= 67_108_864
  {
    if |plain| <= MAX_PLAIN_LEN {
      hide DecodeFrame, LittleEndian;
      DecodesConcatenation(c, c.sha1(plain), plain, c.compress(plain));
      assert |plain| % U64 == |plain|;
    } else {
      hide DecodeFrame, EncodeFrame;
      DecodesIff(c, EncodeFrame(c, plain), c.sha1(plain), plain);
    }
  }

  /** A frame that is too short or claims too much is refused whatever the decompressor would
      have said about it. */
  lemma RefusedByHeader(c: Codec, frame: Bytes)
    requires |frame| < 28 || FromLittleEndian(frame[..8]) > 67_108_864
    ensures DecodeFrame(c, frame) == None
    ensures forall other: Codec :: DecodeFrame(other, frame) == None
  {}

  lemma OversizedDoesNotDecode(c: Codec, plain: Buffer)
    requires |plain| > 67_108_864
    ensures DecodeFrame(c, EncodeFrame(c, plain)) == None
  {
    U64IsEightBytes();
    FromLittleEndianInverts(|plain|, 8);
    assert |plain| % U64 == |plain|;
    assert EncodeFrame(c, plain)[..8] == LittleEndian(|plain|, 8);
  }

  /** The layout of a frame: eight bytes of length, lowest first, the digest, and the body. */
  lemma FrameLayout(c: Codec, plain: Buffer)
    ensures var frame := EncodeFrame(c, plain);
            && |frame| >= 28
            && (forall k | 0 <= k < 8 :: frame[k] == |plain| / Power256(k) % 256)
            && frame[8..28] == c.sha1(plain).digest && frame[28..] == c.compress(plain)
  {
    U64IsEightBytes();
    assert |plain| % U64 == |plain|;
    forall k | 0 <= k < 8 ensures EncodeFrame(c, plain)[k] == |plain| / Power256(k) % 256 {
      LittleEndianAt(|plain|, 8, k);
    }
  }

  lemma FramesAreInjective(c: Codec, p: Bytes, q: Bytes)
    requires |p| <= 67_108_864 && |q| <= 67_108_864
    requires EncodeFrame(c, p) == EncodeFrame(c, q)
    ensures p == q
  {
    RoundTripIff(c, p);
    RoundTripIff(c, q);
  }
}
