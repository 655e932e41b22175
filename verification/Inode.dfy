/** Node ids: a 16-bit snapshot id above a 48-bit index. Snapshot id 0 is the synthetic prefix. */
module Inode {
  import opened Prelude

  const SYNTHETIC: nat := 0
  const ROOT: nat := 1
  const MAX_SNAPSHOT: nat := 0xFFFF
  const INDEXES: nat := 0x1_0000_0000_0000

  /** Shifting left by 48 and or-ing in an index below 2^48. */
  function Pack(snapshot: nat, index: nat): (ino: nat)
    requires snapshot <= MAX_SNAPSHOT && index < INDEXES
    ensures ino < U64
  {
    snapshot * INDEXES + index
  }

  /** Shifting right by 48, and masking the low 48 bits. */
  function Unpack(ino: nat): (nat, nat) {
    (ino / INDEXES, ino % INDEXES)
  }

  /** Packing and unpacking are inverse to each other on all 64-bit words. */
  lemma PackUnpack(snapshot: nat, index: nat)
    requires snapshot <= MAX_SNAPSHOT && index < INDEXES
    ensures Unpack(Pack(snapshot, index)) == (snapshot, index)
  {}

  lemma UnpackPack(ino: nat)
    requires ino < U64
    ensures Unpack(ino).0 <= MAX_SNAPSHOT && Unpack(ino).1 < INDEXES
    ensures Pack(Unpack(ino).0, Unpack(ino).1) == ino
  {}

  const INDEX_MASK: bv64 := 0xFFFF_FFFF_FFFF

  /** The same encoding on machine words. */
  function PackBits(snapshot: bv16, index: bv64): bv64 {
    ((snapshot as bv64) << 48) | index
  }

  function UnpackBits(ino: bv64): (bv16, bv64) {
    (((ino >> 48) & 0xFFFF) as bv16, ino & INDEX_MASK)
  }

  /** The round trip on machine words holds exactly for indexes of 48 bits. */
  lemma PackUnpackBits(snapshot: bv16, index: bv64)
    ensures index & INDEX_MASK == index ==> UnpackBits(PackBits(snapshot, index)) == (snapshot, index)
    ensures UnpackBits(PackBits(snapshot, index)) == (snapshot, index) ==> index & INDEX_MASK == index
  {}

  // ---- The machine words are the numbers ----

  lemma TopByte(x: bv64)
    ensures x as nat == (x >> 56) as nat * 0x100_0000_0000_0000 + (x & 0xFF_FFFF_FFFF_FFFF) as nat
  {}

  lemma SecondByte(x: bv64)
    requires x <= 0xFF_FFFF_FFFF_FFFF
    ensures x as nat == (x >> 48) as nat * 0x1_0000_0000_0000 + (x & 0xFFFF_FFFF_FFFF) as nat
  {}

  lemma TwoBytes(z: bv64)
    requires z <= 0xFFFF
    ensures z as nat == (z >> 8) as nat * 0x100 + (z & 0xFF) as nat
  {}

  lemma SameBytes(x: bv64)
    ensures x & 0xFF_FFFF_FFFF_FFFF <= 0xFF_FFFF_FFFF_FFFF
    ensures (x >> 48) >> 8 == x >> 56 && x >> 48 <= 0xFFFF
    ensures (x >> 48) & 0xFF == (x & 0xFF_FFFF_FFFF_FFFF) >> 48
    ensures (x & 0xFF_FFFF_FFFF_FFFF) & INDEX_MASK == x & INDEX_MASK
  {}

  lemma Combines(word: nat, high: nat, top: nat, second: nat, rest: nat, low: nat)
    requires word == top * 0x100_0000_0000_0000 + rest && rest == second * INDEXES + low
    requires high == top * 0x100 + second
    ensures word == high * INDEXES + low
  {}

  /** A word is its high 16 bits times 2^48 plus its low 48 bits. */
  lemma WordSplits(x: bv64)
    ensures x as nat == (x >> 48) as nat * INDEXES + (x & INDEX_MASK) as nat
  {
    var rest := x & 0xFF_FFFF_FFFF_FFFF;
    SameBytes(x);
    TopByte(x);
    SecondByte(rest);
    TwoBytes(x >> 48);
    Combines(x as nat, (x >> 48) as nat, (x >> 56) as nat, ((x >> 48) & 0xFF) as nat, rest as nat,
             (x & INDEX_MASK) as nat);
  }

  lemma FullHighPart(index: bv64)
    requires index <= INDEX_MASK
    ensures (0xFFFF_0000_0000_0000 | index) >> 48 == 0xFFFF && (0xFFFF_0000_0000_0000 | index) & INDEX_MASK == index
  {}

  /** Below a full high part an index makes a word, so it is below 2^48. */
  lemma IndexFits(index: bv64)
    requires index <= INDEX_MASK
    ensures index as nat < INDEXES
  {
    var full := 0xFFFF_0000_0000_0000 | index;
    FullHighPart(index);
    WordSplits(full);
    assert (0xFFFF as bv64) as nat == 0xFFFF;
  }

  lemma PartsOfPack(snapshot: bv16, index: bv64)
    requires index <= INDEX_MASK
    ensures PackBits(snapshot, index) >> 48 == snapshot as bv64
    ensures PackBits(snapshot, index) & INDEX_MASK == index
  {}

  lemma Widened(snapshot: bv16)
    ensures (snapshot as bv64) as nat == snapshot as nat
  {}

  lemma Narrowed(ino: bv64)
    ensures UnpackBits(ino).0 as nat == (ino >> 48) as nat && UnpackBits(ino).1 <= INDEX_MASK
  {}

  /** Shifting and or-ing in is multiplying and adding. */
  lemma PackIsPackBits(snapshot: bv16, index: bv64)
    requires index <= INDEX_MASK
    ensures index as nat < INDEXES && PackBits(snapshot, index) as nat == Pack(snapshot as nat, index as nat)
  {
    hide PackBits;
    WordSplits(PackBits(snapshot, index));
    PartsOfPack(snapshot, index);
    IndexFits(index);
    Widened(snapshot);
  }

  lemma Quotient(word: nat, high: nat, low: nat)
    requires word == high * INDEXES + low && low < INDEXES
    ensures Unpack(word) == (high, low)
  {}

  /** Shifting back and masking is dividing and taking the remainder. */
  lemma UnpackIsUnpackBits(ino: bv64)
    ensures var (snapshot, index) := UnpackBits(ino); Unpack(ino as nat) == (snapshot as nat, index as nat)
  {
    var (snapshot, index) := UnpackBits(ino);
    WordSplits(ino);
    Narrowed(ino);
    IndexFits(index);
    assert ino & INDEX_MASK == index;
    Quotient(ino as nat, snapshot as nat, index as nat);
  }
}
