/** The seekable reader over one file: it fetches the chunk under its position, keeps the last
    one it fetched, and hands out at most the rest of that chunk. */
module FileReader {
  import opened Prelude
  import opened Manifests
  import opened ManifestFs

  datatype SeekFrom = FromStart(n: nat) | FromEnd(d: int) | FromCurrent(d: int)

  /** Offsets are 64-bit words, signed ones for the relative forms. */
  predicate Representable(from: SeekFrom) {
    match from
    case FromStart(n) => n < U64
    case FromEnd(d) => -(U64 / 2) <= d < U64 / 2
    case FromCurrent(d) => -(U64 / 2) <= d < U64 / 2
  }

  /** How many chunks start at or before `pos`. */
  function PartitionPoint(chunks: seq<Chunk>, pos: nat): (n: nat)
    ensures n <= |chunks|
    ensures forall i | 0 <= i < n :: chunks[i].offset <= pos
    ensures n < |chunks| ==> chunks[n].offset > pos
  {
    if chunks == [] || chunks[0].offset > pos then 0 else 1 + PartitionPoint(chunks[1..], pos)
  }

  /** The chunk a read at `pos` goes to, if there is one. */
  function ChunkUnder(chunks: seq<Chunk>, pos: nat): (r: Option<nat>)
    ensures r.Some? ==>
              && r.value < |chunks|
              && chunks[r.value].offset <= pos < chunks[r.value].offset + chunks[r.value].size
  {
    var n := PartitionPoint(chunks, pos);
    if n == 0 || pos >= chunks[n - 1].offset + chunks[n - 1].size then None else Some(n - 1)
  }

  /** Within a contiguous file every position has its chunk. */
  lemma EveryPositionCovered(chunks: seq<Chunk>, size: nat, pos: nat)
    requires Contiguous(chunks, size) && pos < size
    ensures ChunkUnder(chunks, pos).Some?
  {
    ChunkBounds(chunks, size, 0);
    var n := PartitionPoint(chunks, pos);
    if n > 0 {
      ChunkBounds(chunks, size, n - 1);
    }
  }

  /** The store returns exactly the bytes of the chunk, or an error. */
  ghost predicate Exact(get: Sha -> Option<Bytes>, plain: Sha -> Bytes) {
    forall sha | get(sha).Some? :: get(sha).value == plain(sha)
  }

  /** `copy_from_slice`. */
  method CopyInto(buf: array<Byte>, bytes: Bytes, from: nat, n: nat)
    requires from + n <= |bytes| && n <= buf.Length
    modifies buf
    ensures buf[..n] == bytes[from..from + n]
    ensures buf[n..] == old(buf[n..])
  {
    for k := 0 to n
      invariant forall j | 0 <= j < k :: buf[j] == bytes[from + j]
      invariant forall j | k <= j < buf.Length :: buf[j] == old(buf[j])
    {
      buf[k] := bytes[from + k];
    }
  }

  /** A piece of chunk `i` is the piece of the content at the same place. */
  lemma ReadsContent(chunks: seq<Chunk>, size: nat, plain: Sha -> Bytes, i: nat, pos: nat, n: nat)
    requires Contiguous(chunks, size) && RightLengths(chunks, plain) && i < |chunks|
    requires chunks[i].offset <= pos && pos + n <= chunks[i].offset + |plain(chunks[i].sha)|
    ensures |plain(chunks[i].sha)| == chunks[i].size
    ensures |Content(chunks, plain)| == size && pos + n <= size
    ensures var off := pos - chunks[i].offset;
            plain(chunks[i].sha)[off..off + n] == Content(chunks, plain)[pos..pos + n]
  {
    ContentAt(chunks, size, plain, i);
    var start := chunks[i].offset;
    SliceOfSlice(Content(chunks, plain), start, start + chunks[i].size, pos - start, pos - start + n);
  }

  class DepotFileReader {
    const chunks: seq<Chunk>
    const size: nat
    var pos: nat
    var cached: Option<(nat, Bytes)>

    /** The kept chunk is the one its index says. */
    ghost predicate CacheOk(plain: Sha -> Bytes)
      reads this
    {
      cached.Some? ==> cached.value.0 < |chunks| && cached.value.1 == plain(chunks[cached.value.0].sha)
    }

    constructor (chunks: seq<Chunk>, size: nat)
      ensures this.chunks == chunks && this.size == size && pos == 0
      ensures forall plain :: CacheOk(plain)
    {
      this.chunks := chunks;
      this.size := size;
      pos := 0;
      cached := None;
    }

    /** What a read that got as far as a chunk does with it: a chunk that ends before the position
        panics, one that ends at it looks like the end of the file, a longer one makes progress. */
    ghost predicate Serves(i: nat, bytes: Bytes, at: nat, space: nat, r: Result<nat, IoError>) {
      && i < |chunks| && chunks[i].offset <= at
      && var off := at - chunks[i].offset;
         if |bytes| < off then r == Err(Panicked) else r == Ok(Min(|bytes| - off, space))
    }

    /** The bytes of chunk `i`: the kept ones, or those the store returns, which are then kept. */
    method ChunkBytes(i: nat, get: Sha -> Option<Bytes>, ghost plain: Sha -> Bytes) returns (r: Result<Bytes, IoError>)
      requires i < |chunks|
      modifies this`cached
      ensures r.Err? ==> r.error == Other && get(chunks[i].sha) == None && cached == old(cached)
      ensures r.Ok? ==> cached == Some((i, r.value))
      ensures Exact(get, plain) && old(CacheOk(plain)) ==>
                CacheOk(plain) && (r.Ok? ==> r.value == plain(chunks[i].sha))
    {
      if cached.Some? && cached.value.0 == i {
        return Ok(cached.value.1);
      }
      var fetched := get(chunks[i].sha);
      if fetched == None {
        return Err(Other);
      }
      cached := Some((i, fetched.value));
      r := Ok(fetched.value);
    }

    /** One read into `buf`. On a well-formed file and a store that returns exact chunks, it
        delivers the bytes at the position, at least one unless the buffer is empty or the end is
        reached; an error changes nothing. */
    method Read(buf: array<Byte>, get: Sha -> Option<Bytes>, ghost plain: Sha -> Bytes)
      returns (r: Result<nat, IoError>)
      modifies this`pos, this`cached, buf
      ensures buf.Length == 0 || old(pos) >= size ==> r == Ok(0)
      ensures r.Err? || r == Ok(0) ==> pos == old(pos) && buf[..] == old(buf[..])
      ensures r.Err? && r.error != Panicked ==> cached == old(cached)
      ensures r == Err(InvalidData) <==> buf.Length > 0 && old(pos) < size && ChunkUnder(chunks, old(pos)) == None
      ensures r == Err(Other) ==>
                ChunkUnder(chunks, old(pos)).Some? && get(chunks[ChunkUnder(chunks, old(pos)).value].sha) == None
      ensures r.Err? ==> r.error in {InvalidData, Other, Panicked}
      ensures (r.Ok? || r.error == Panicked) && buf.Length > 0 && old(pos) < size ==>
                && cached.Some? && ChunkUnder(chunks, old(pos)) == Some(cached.value.0)
                && Serves(cached.value.0, cached.value.1, old(pos), buf.Length, r)
      ensures Contiguous(chunks, size) && RightLengths(chunks, plain) && Exact(get, plain) && old(CacheOk(plain)) ==>
                && CacheOk(plain)
                && (r.Ok? ==>
                      var content := Content(chunks, plain);
                      && |content| == size
                      && r.value <= buf.Length && pos == old(pos) + r.value
                      && (pos <= size || r.value == 0)
                      && (buf.Length > 0 && old(pos) < size ==> r.value > 0)
                      && (r.value > 0 ==> buf[..r.value] == content[old(pos)..pos])
                      && buf[r.value..] == old(buf[r.value..]))
                && (r.Err? ==> r.error == Other && exists sha :: get(sha) == None)
    {
      hide Content, Contiguous, PartitionPoint, ChunkUnder, Exact;
      if Contiguous(chunks, size) && RightLengths(chunks, plain) {
        ContentLength(chunks, size, plain);
      }
      if buf.Length == 0 || pos >= size {
        return Ok(0);
      }
      if Contiguous(chunks, size) {
        EveryPositionCovered(chunks, size, pos);
      }
      var under := ChunkUnder(chunks, pos);
      if under == None {
        return Err(InvalidData);
      }
      var i := under.value;
      var fetched := ChunkBytes(i, get, plain);
      if fetched.Err? {
        return Err(fetched.error);
      }
      var bytes := fetched.value;
      var chunkOff := pos - chunks[i].offset;
      var available := Max(0, |bytes| - chunkOff);
      var toCopy: nat := Min(available, buf.Length);
      if |bytes| < chunkOff {
        return Err(Panicked);
      }
      CopyInto(buf, bytes, chunkOff, toCopy);
      if Contiguous(chunks, size) && RightLengths(chunks, plain) && bytes == plain(chunks[i].sha) {
        ReadsContent(chunks, size, plain, i, pos, toCopy);
      }
      pos := pos + toCopy;
      r := Ok(toCopy);
    }

    /** The new position is the requested one modulo the word size; a position before the start
        is refused and changes nothing. */
    method Seek(from: SeekFrom) returns (r: Result<nat, IoError>)
      requires Representable(from) && pos < U64 && size < U64
      modifies this`pos
      ensures var requested := match from
                               case FromStart(n) => n as int
                               case FromEnd(d) => size + d
                               case FromCurrent(d) => old(pos) + d;
              && (r.Err? <==> requested < 0)
              && (r.Err? ==> r.error == InvalidInput && pos == old(pos))
              && (r.Ok? ==> r.value == pos)
              && (r == Ok(requested) <==> 0 <= requested < U64)
              && pos < U64
    {
      var newPos := match from
                    case FromStart(n) => n as int
                    case FromEnd(d) => size + d
                    case FromCurrent(d) => pos + d;
      if newPos < 0 {
        return Err(InvalidInput);
      }
      pos := newPos % U64;
      r := Ok(pos);
    }
  }

  /** Reading on until nothing comes terminates, and delivers exactly the rest of the file. */
  method ReadToEnd(reader: DepotFileReader, step: nat, get: Sha -> Option<Bytes>, ghost plain: Sha -> Bytes)
    returns (r: Result<Bytes, IoError>)
    requires step > 0 && reader.CacheOk(plain)
    requires Contiguous(reader.chunks, reader.size) && RightLengths(reader.chunks, plain) && Exact(get, plain)
    modifies reader`pos, reader`cached
    ensures |Content(reader.chunks, plain)| == reader.size
    ensures r.Ok? ==>
              && r.value == Content(reader.chunks, plain)[Min(old(reader.pos), reader.size)..]
              && reader.pos == Max(old(reader.pos), reader.size)
    ensures (forall sha :: get(sha).Some?) ==> r.Ok?
  {
    hide Content, Contiguous, RightLengths, Exact, ChunkUnder, PartitionPoint;
    ghost var content := Content(reader.chunks, plain);
    ContentLength(reader.chunks, reader.size, plain);
    ghost var start := reader.pos;
    var out: Bytes := [];
    while true
      invariant start <= reader.pos <= Max(start, reader.size)
      invariant out == content[Min(start, reader.size)..Min(reader.pos, reader.size)]
      invariant reader.CacheOk(plain)
      decreases reader.size - reader.pos
    {
      ghost var from := reader.pos;
      var buf := new Byte[step];
      var n := reader.Read(buf, get, plain);
      if n.Err? {
        return Err(n.error);
      }
      if n.value == 0 {
        return Ok(out);
      }
      out := out + buf[..n.value];
      SlicesJoin(content, start, from, reader.pos);
    }
  }
}
