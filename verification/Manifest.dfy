/** A depot manifest, the two indexes built over it, and what a file's content is. */
module Manifests {
  import opened Prelude
  import opened Paths

  datatype Chunk = Chunk(sha: Sha, offset: nat, size: nat)

  datatype FileKind =
    | File(executable: bool, chunks: seq<Chunk>)
    | Directory
    | Symlink(target: string)

  datatype DepotFile = DepotFile(path: string, size: nat, kind: FileKind)

  datatype Manifest = Manifest(creationTime: nat, files: seq<DepotFile>)

  // ---- Indexes ----

  function AddPath(index: map<string, nat>, f: DepotFile, i: nat): map<string, nat> {
    index[f.path := i]
  }

  /** Path to index in the manifest; of files with the same path the last one counts. */
  function ByPath(files: seq<DepotFile>): map<string, nat> {
    if files == [] then map[]
    else AddPath(ByPath(files[..|files| - 1]), files[|files| - 1], |files| - 1)
  }

  function AddChild(index: map<string, seq<nat>>, f: DepotFile, i: nat): map<string, seq<nat>> {
    var dir := ParentKey(f.path);
    index[dir := (if dir in index then index[dir] else []) + [i]]
  }

  /** Directory to the indexes of its direct children, in manifest order. */
  function ChildrenOf(files: seq<DepotFile>): map<string, seq<nat>> {
    if files == [] then map[]
    else AddChild(ChildrenOf(files[..|files| - 1]), files[|files| - 1], |files| - 1)
  }

  ghost predicate UniquePaths(files: seq<DepotFile>) {
    forall i, j | 0 <= i < j < |files| :: files[i].path != files[j].path
  }

  ghost predicate NormalisedPaths(files: seq<DepotFile>) {
    forall i | 0 <= i < |files| :: Normalised(files[i].path)
  }

  lemma {:induction false} ByPathFinds(files: seq<DepotFile>, p: string)
    ensures p in ByPath(files) <==> exists i :: 0 <= i < |files| && files[i].path == p
    ensures p in ByPath(files) ==>
              var i := ByPath(files)[p];
              i < |files| && files[i].path == p && (forall j | i < j < |files| :: files[j].path != p)
  {
    if files != [] {
      var n := |files| - 1;
      ByPathFinds(files[..n], p);
      assert forall i | 0 <= i < n :: files[i] == files[..n][i];
      if p in ByPath(files) && files[n].path != p {
        assert files[..n][ByPath(files)[p]].path == p;
      }
    }
  }

  /** The path index as a partial function. */
  function Lookup(files: seq<DepotFile>, p: string): (r: Option<nat>)
    ensures r.Some? ==> r.value < |files| && files[r.value].path == p
    ensures r.None? ==> forall i | 0 <= i < |files| :: files[i].path != p
  {
    ByPathFinds(files, p);
    if p in ByPath(files) then Some(ByPath(files)[p]) else None
  }

  /** Every entry's directory has an entry of its own, up to the root. */
  ghost predicate AncestorsListed(files: seq<DepotFile>) {
    forall i | 0 <= i < |files| && ParentKey(files[i].path) != "" ::
      Lookup(files, ParentKey(files[i].path)).Some?
  }

  lemma ByPathUnique(files: seq<DepotFile>, i: nat)
    requires UniquePaths(files) && i < |files|
    ensures Lookup(files, files[i].path) == Some(i)
  {}

  /** The indexes of the files directly in `dir`. */
  function IndexesIn(files: seq<DepotFile>, dir: string): seq<nat> {
    if files == [] then []
    else
      var n := |files| - 1;
      IndexesIn(files[..n], dir) + (if ParentKey(files[n].path) == dir then [n] else [])
  }

  /** The incremental index has exactly the nonempty directories, each with its files. */
  lemma {:induction false} ChildrenAreIndexes(files: seq<DepotFile>, dir: string)
    ensures dir in ChildrenOf(files) <==> IndexesIn(files, dir) != []
    ensures dir in ChildrenOf(files) ==> ChildrenOf(files)[dir] == IndexesIn(files, dir)
  {
    if files != [] {
      ChildrenAreIndexes(files[..|files| - 1], dir);
    }
  }

  lemma {:induction false} IndexesAreExact(files: seq<DepotFile>, dir: string)
    ensures forall k | 0 <= k < |IndexesIn(files, dir)| ::
              IndexesIn(files, dir)[k] < |files| && ParentKey(files[IndexesIn(files, dir)[k]].path) == dir
    ensures forall k, l | 0 <= k < l < |IndexesIn(files, dir)| :: IndexesIn(files, dir)[k] < IndexesIn(files, dir)[l]
  {
    if files != [] {
      var n := |files| - 1;
      IndexesAreExact(files[..n], dir);
    }
  }

  lemma {:induction false} IndexesAreAll(files: seq<DepotFile>, dir: string, i: nat)
    requires i < |files| && ParentKey(files[i].path) == dir
    ensures i in IndexesIn(files, dir)
    decreases |files|
  {
    var n := |files| - 1;
    if i < n {
      IndexesAreAll(files[..n], dir, i);
    }
  }

  // ---- Content ----

  /** The bytes of a file: its chunks, one after the other. */
  function Content(chunks: seq<Chunk>, plain: Sha -> Bytes): Bytes {
    if chunks == [] then []
    else Content(chunks[..|chunks| - 1], plain) + plain(chunks[|chunks| - 1].sha)
  }

  /** Chunks follow each other without gap or overlap, starting at 0 and ending at `size`. */
  predicate Contiguous(chunks: seq<Chunk>, size: nat) {
    if chunks == [] then size == 0
    else
      var n := |chunks| - 1;
      chunks[n].offset + chunks[n].size == size && Contiguous(chunks[..n], chunks[n].offset)
  }

  /** Every chunk has the length the manifest gives it. */
  ghost predicate RightLengths(chunks: seq<Chunk>, plain: Sha -> Bytes) {
    forall i | 0 <= i < |chunks| :: |plain(chunks[i].sha)| == chunks[i].size
  }

  /** Where chunk `i` ends is where the next one starts, or the file ends. */
  lemma {:induction false} ChunkBounds(chunks: seq<Chunk>, size: nat, i: nat)
    requires Contiguous(chunks, size) && i < |chunks|
    ensures var end := chunks[i].offset + chunks[i].size;
            end == (if i + 1 < |chunks| then chunks[i + 1].offset else size) && end <= size
    ensures chunks[0].offset == 0
    decreases |chunks|
  {
    var n := |chunks| - 1;
    if i < n {
      ChunkBounds(chunks[..n], chunks[n].offset, i);
    } else if n > 0 {
      ChunkBounds(chunks[..n], chunks[n].offset, 0);
    }
  }

  lemma {:induction false} OffsetsGrow(chunks: seq<Chunk>, size: nat, i: nat, j: nat)
    requires Contiguous(chunks, size) && i <= j < |chunks|
    ensures chunks[i].offset <= chunks[j].offset
    decreases j
  {
    if i < j {
      OffsetsGrow(chunks, size, i, j - 1);
      ChunkBounds(chunks, size, j - 1);
    }
  }

  lemma {:induction false} ContentLength(chunks: seq<Chunk>, size: nat, plain: Sha -> Bytes)
    requires Contiguous(chunks, size) && RightLengths(chunks, plain)
    ensures |Content(chunks, plain)| == size
  {
    if chunks != [] {
      var n := |chunks| - 1;
      ContentLength(chunks[..n], chunks[n].offset, plain);
    }
  }

  /** Chunk `i` is the part of the content between its start and its end. */
  lemma {:induction false} ContentAt(chunks: seq<Chunk>, size: nat, plain: Sha -> Bytes, i: nat)
    requires Contiguous(chunks, size) && RightLengths(chunks, plain) && i < |chunks|
    ensures var end := chunks[i].offset + chunks[i].size;
            && end <= size == |Content(chunks, plain)|
            && Content(chunks, plain)[chunks[i].offset..end] == plain(chunks[i].sha)
    decreases |chunks|
  {
    var n := |chunks| - 1;
    ChunkBounds(chunks, size, i);
    ContentLength(chunks, size, plain);
    ContentLength(chunks[..n], chunks[n].offset, plain);
    var before := Content(chunks[..n], plain);
    if i < n {
      var end := chunks[i].offset + chunks[i].size;
      ContentAt(chunks[..n], chunks[n].offset, plain, i);
      assert Content(chunks, plain)[chunks[i].offset..end] == before[chunks[i].offset..end];
    } else {
      assert Content(chunks, plain)[|before|..] == plain(chunks[n].sha);
    }
  }
}
