/** File-system view over one manifest: the indexes, listing a directory, and reading a range of
    a file through its chunks. */
module ManifestFs {
  import opened Prelude
  import opened Paths
  import opened Manifests

  /** `Panicked` stands for a call that does not return: an index out of range. */
  datatype IoError =
    | NotFound(missing: Option<string>)
    | InvalidInput
    | InvalidData
    | Other
    | Panicked

  datatype Meta = Meta(size: nat, kind: FileKind)

  /** An entry of a listing shows a file: its name, size and kind. A path that ends in no name stands
      for itself. */
  ghost predicate EntryShows(e: (string, Meta), f: DepotFile) {
    && (FileName(f.path) == Some(e.0) || (FileName(f.path) == None && e.0 == f.path))
    && e.1.size == f.size && e.1.kind == f.kind
  }

  /** A caller's byte vector. */
  class ByteVec {
    var bytes: Bytes
    constructor ()
      ensures bytes == []
    {
      bytes := [];
    }
  }

  /** The end of a component: the end of the path, or a slash. */
  predicate Boundary(path: string, i: int) {
    0 <= i <= |path| && (i == |path| || path[i] == '/')
  }

  /** The chunks a read of `[offset, end)` has to ask the store for, in order. */
  function Wanted(chunks: seq<Chunk>, offset: nat, end: nat): seq<Sha> {
    if chunks == [] then []
    else
      var c := chunks[|chunks| - 1];
      Wanted(chunks[..|chunks| - 1], offset, end)
      + (if c.offset < end && c.offset + c.size > offset then [c.sha] else [])
  }

  /** What the store returns is never different bytes, though it may be too few or too many. */
  ghost predicate Agrees(get: Sha -> Option<Bytes>, plain: Sha -> Bytes) {
    forall sha | get(sha).Some? ::
      var n := Min(|get(sha).value|, |plain(sha)|);
      get(sha).value[..n] == plain(sha)[..n]
  }

  /** The store failed to return a chunk, or returned too little of it. */
  ghost predicate Lacking(chunks: seq<Chunk>, get: Sha -> Option<Bytes>, plain: Sha -> Bytes, sha: Sha) {
    get(sha) == None || (RightLengths(chunks, plain) ==> |get(sha).value| < |plain(sha)|)
  }

  ghost predicate Good(chunks: seq<Chunk>, size: nat, get: Sha -> Option<Bytes>, plain: Sha -> Bytes) {
    Contiguous(chunks, size) && RightLengths(chunks, plain) && Agrees(get, plain)
  }

  /** How far the first `i` chunks reach into the range. */
  function Reached(chunks: seq<Chunk>, size: nat, i: nat, offset: nat, end: nat): (r: nat)
    requires i <= |chunks| && offset <= end
    ensures offset <= r <= end
  {
    var start := if i < |chunks| then chunks[i].offset else size;
    Max(offset, Min(end, start))
  }

  /** After `i` chunks, what was appended is the part of the range they cover. */
  ghost predicate CopiedUpTo(chunks: seq<Chunk>, size: nat, get: Sha -> Option<Bytes>, plain: Sha -> Bytes,
                             offset: nat, end: nat, i: nat, was: Bytes, now: Bytes)
    requires offset <= end <= size && i <= |chunks|
  {
    Good(chunks, size, get, plain) ==>
      && |Content(chunks, plain)| == size
      && now == was + Content(chunks, plain)[offset..Reached(chunks, size, i, offset, end)]
  }

  ghost predicate Appended(chunks: seq<Chunk>, size: nat, get: Sha -> Option<Bytes>, plain: Sha -> Bytes,
                           offset: nat, end: nat, was: Bytes, now: Bytes, all: bool)
    requires offset <= end <= size
  {
    Good(chunks, size, get, plain) ==>
      var content := Content(chunks, plain);
      && |content| == size
      && if all then now == was + content[offset..end] else was <= now <= was + content[offset..end]
  }

  lemma TooShort(chunks: seq<Chunk>, get: Sha -> Option<Bytes>, plain: Sha -> Bytes, i: nat)
    requires i < |chunks| && get(chunks[i].sha).Some? && |get(chunks[i].sha).value| < chunks[i].size
    ensures Lacking(chunks, get, plain, chunks[i].sha)
  {}

  lemma Begins(chunks: seq<Chunk>, size: nat, get: Sha -> Option<Bytes>, plain: Sha -> Bytes,
               offset: nat, end: nat, was: Bytes)
    requires offset <= end <= size
    ensures CopiedUpTo(chunks, size, get, plain, offset, end, 0, was, was)
  {
    if Good(chunks, size, get, plain) {
      ContentLength(chunks, size, plain);
      if chunks != [] {
        ChunkBounds(chunks, size, 0);
      }
      assert Reached(chunks, size, 0, offset, end) == offset;
    }
  }

  lemma Skips(chunks: seq<Chunk>, size: nat, get: Sha -> Option<Bytes>, plain: Sha -> Bytes,
              offset: nat, end: nat, i: nat, was: Bytes, now: Bytes)
    requires offset <= end <= size && i < |chunks| && chunks[i].offset + chunks[i].size <= offset
    requires CopiedUpTo(chunks, size, get, plain, offset, end, i, was, now)
    ensures CopiedUpTo(chunks, size, get, plain, offset, end, i + 1, was, now)
  {
    if Good(chunks, size, get, plain) {
      ChunkBounds(chunks, size, i);
      assert Reached(chunks, size, i + 1, offset, end) == Reached(chunks, size, i, offset, end);
    }
  }

  /** Chunks past the end of the range are not wanted. */
  lemma {:induction false} WantedNoMore(chunks: seq<Chunk>, size: nat, offset: nat, end: nat, i: nat)
    requires Contiguous(chunks, size) && i < |chunks| && chunks[i].offset >= end
    ensures Wanted(chunks[..i], offset, end) == Wanted(chunks, offset, end)
    decreases |chunks|
  {
    var n := |chunks| - 1;
    OffsetsGrow(chunks, size, i, n);
    if i < n {
      WantedNoMore(chunks[..n], chunks[n].offset, offset, end, i);
      assert chunks[..n][..i] == chunks[..i];
    }
  }

  lemma Stops(chunks: seq<Chunk>, size: nat, get: Sha -> Option<Bytes>, plain: Sha -> Bytes,
              offset: nat, end: nat, i: nat, was: Bytes, now: Bytes)
    requires offset <= end <= size && i < |chunks|
    requires CopiedUpTo(chunks, size, get, plain, offset, end, i, was, now)
    ensures Appended(chunks, size, get, plain, offset, end, was, now, false)
    ensures chunks[i].offset >= end ==>
              && Appended(chunks, size, get, plain, offset, end, was, now, true)
              && (Contiguous(chunks, size) ==> Wanted(chunks[..i], offset, end) == Wanted(chunks, offset, end))
  {
    if Good(chunks, size, get, plain) {
      var content := Content(chunks, plain);
      var to := Reached(chunks, size, i, offset, end);
      assert content[offset..to] <= content[offset..end];
    }
    if chunks[i].offset >= end && Contiguous(chunks, size) {
      WantedNoMore(chunks, size, offset, end, i);
    }
  }

  lemma ReachedHere(chunks: seq<Chunk>, size: nat, i: nat, offset: nat, end: nat)
    requires Contiguous(chunks, size) && i < |chunks| && offset <= end <= size
    requires chunks[i].offset < end && chunks[i].offset + chunks[i].size > offset
    ensures var start := chunks[i].offset;
            && Reached(chunks, size, i, offset, end) == start + Max(0, offset - start)
            && Reached(chunks, size, i + 1, offset, end) == Min(end, start + chunks[i].size)
  {
    hide Contiguous;
    ChunkBounds(chunks, size, i);
  }

  lemma SlicesOfPrefix(a: Bytes, b: Bytes, n: nat, lo: nat, hi: nat)
    requires n <= |a| && n <= |b| && lo <= hi <= n && a[..n] == b[..n]
    ensures a[lo..hi] == b[lo..hi]
  {
    assert a[..n][lo..hi] == a[lo..hi];
    assert b[..n][lo..hi] == b[lo..hi];
  }

  lemma SliceOfSlice(s: Bytes, from: nat, to: nat, lo: nat, hi: nat)
    requires from <= to <= |s| && lo <= hi <= to - from
    ensures s[from..to][lo..hi] == s[from + lo..from + hi]
  {
    assert forall j | 0 <= j < hi - lo :: s[from..to][lo..hi][j] == s[from + lo..from + hi][j];
  }

  /** A piece of what the store returned is the piece of the content at the same place. */
  lemma PieceOf(content: Bytes, bytes: Bytes, p: Bytes, start: nat, lo: nat, hi: nat)
    requires start + |p| <= |content| && content[start..start + |p|] == p
    requires lo <= hi <= |bytes| && hi <= |p|
    requires var n := Min(|bytes|, |p|); bytes[..n] == p[..n]
    ensures bytes[lo..hi] == content[start + lo..start + hi]
  {
    SlicesOfPrefix(bytes, p, Min(|bytes|, |p|), lo, hi);
    SliceOfSlice(content, start, start + |p|, lo, hi);
  }

  lemma SamePrefix(get: Sha -> Option<Bytes>, plain: Sha -> Bytes, sha: Sha)
    requires Agrees(get, plain) && get(sha).Some?
    ensures var n := Min(|get(sha).value|, |plain(sha)|);
            get(sha).value[..n] == plain(sha)[..n]
  {}

  /** What one chunk contributes is the next piece of the content. */
  lemma CopiesSlice(chunks: seq<Chunk>, size: nat, get: Sha -> Option<Bytes>, plain: Sha -> Bytes,
                    i: nat, offset: nat, end: nat)
    requires Good(chunks, size, get, plain) && i < |chunks| && offset <= end <= size
    requires get(chunks[i].sha).Some? && chunks[i].offset < end && chunks[i].offset + chunks[i].size > offset
    requires var start := chunks[i].offset;
             Min(end, start + chunks[i].size) - start <= |get(chunks[i].sha).value|
    ensures var start, bytes := chunks[i].offset, get(chunks[i].sha).value;
            var content := Content(chunks, plain);
            var from, to := Reached(chunks, size, i, offset, end), Reached(chunks, size, i + 1, offset, end);
            && |content| == size
            && from <= to <= size
            && bytes[Max(0, offset - start)..Min(end, start + chunks[i].size) - start] == content[from..to]
  {
    var start, bytes := chunks[i].offset, get(chunks[i].sha).value;
    var content, p := Content(chunks, plain), plain(chunks[i].sha);
    hide Content, Contiguous, Agrees;
    ContentAt(chunks, size, plain, i);
    ChunkBounds(chunks, size, i);
    SamePrefix(get, plain, chunks[i].sha);
    var lo, hi := Max(0, offset - start), Min(end, start + chunks[i].size) - start;
    PieceOf(content, bytes, p, start, lo, hi);
    ReachedHere(chunks, size, i, offset, end);
  }

  lemma SlicesJoin(s: Bytes, a: nat, b: nat, c: nat)
    requires a <= b <= c <= |s|
    ensures s[a..b] + s[b..c] == s[a..c]
  {}

  lemma Copies(chunks: seq<Chunk>, size: nat, get: Sha -> Option<Bytes>, plain: Sha -> Bytes,
               offset: nat, end: nat, i: nat, was: Bytes, now: Bytes)
    requires offset <= end <= size && i < |chunks|
    requires chunks[i].offset < end && chunks[i].offset + chunks[i].size > offset
    requires get(chunks[i].sha).Some?
    requires Min(end, chunks[i].offset + chunks[i].size) - chunks[i].offset <= |get(chunks[i].sha).value|
    requires CopiedUpTo(chunks, size, get, plain, offset, end, i, was, now)
    ensures var start := chunks[i].offset;
            var lo, hi := Max(0, offset - start), Min(end, start + chunks[i].size) - start;
            CopiedUpTo(chunks, size, get, plain, offset, end, i + 1, was, now + get(chunks[i].sha).value[lo..hi])
  {
    if Good(chunks, size, get, plain) {
      hide Good, Content, Reached;
      CopiesSlice(chunks, size, get, plain, i, offset, end);
      var content := Content(chunks, plain);
      var from, to := Reached(chunks, size, i, offset, end), Reached(chunks, size, i + 1, offset, end);
      SlicesJoin(content, offset, from, to);
      ConcatAssociative(was, content[offset..from], content[from..to]);
    }
  }

  lemma Ends(chunks: seq<Chunk>, size: nat, get: Sha -> Option<Bytes>, plain: Sha -> Bytes,
             offset: nat, end: nat, was: Bytes, now: Bytes)
    requires offset <= end <= size
    requires CopiedUpTo(chunks, size, get, plain, offset, end, |chunks|, was, now)
    ensures Appended(chunks, size, get, plain, offset, end, was, now, true)
  {}

  lemma {:induction false} WantedPrefix(chunks: seq<Chunk>, i: nat, offset: nat, end: nat)
    requires i <= |chunks|
    ensures Wanted(chunks[..i], offset, end) <= Wanted(chunks, offset, end)
    decreases |chunks|
  {
    if i < |chunks| {
      var n := |chunks| - 1;
      WantedPrefix(chunks[..n], i, offset, end);
      assert chunks[..n][..i] == chunks[..i];
    } else {
      assert chunks[..i] == chunks;
    }
  }

  /** The chunk loop of a read. */
  method CopyChunks(chunks: seq<Chunk>, size: nat, offset: nat, end: nat, get: Sha -> Option<Bytes>,
                    out: ByteVec, ghost plain: Sha -> Bytes)
    returns (r: Result<(), IoError>, ghost asked: seq<Sha>)
    requires offset <= end <= size
    modifies out
    ensures Contiguous(chunks, size) ==>
              && asked <= Wanted(chunks, offset, end)
              && (r.Ok? ==> asked == Wanted(chunks, offset, end))
              && (r.Err? ==> r.error.Other? && asked != [])
    ensures r.Err? ==> asked != [] && Lacking(chunks, get, plain, asked[|asked| - 1])
    ensures Appended(chunks, size, get, plain, offset, end, old(out.bytes), out.bytes, r.Ok?)
    ensures old(out.bytes) <= out.bytes
  {
    hide Appended, CopiedUpTo, Good, Contiguous, Content, Reached, RightLengths;
    ghost var was := out.bytes;
    asked := [];
    Begins(chunks, size, get, plain, offset, end, was);
    var i := 0;
    while i < |chunks|
      invariant i <= |chunks|
      invariant asked == Wanted(chunks[..i], offset, end)
      invariant CopiedUpTo(chunks, size, get, plain, offset, end, i, was, out.bytes)
      invariant was <= out.bytes
    {
      var c := chunks[i];
      var start, stop := c.offset, c.offset + c.size;
      assert chunks[..i + 1][..i] == chunks[..i];
      if stop <= offset {
        Skips(chunks, size, get, plain, offset, end, i, was, out.bytes);
        i := i + 1;
        continue;
      }
      Stops(chunks, size, get, plain, offset, end, i, was, out.bytes);
      if start >= end {
        return Ok(()), asked;
      }
      asked := asked + [c.sha];
      WantedPrefix(chunks, i + 1, offset, end);
      var got := get(c.sha);
      if got == None {
        return Err(Other), asked;
      }
      var bytes := got.value;
      var sliceStart := Max(0, offset - start);
      var sliceEnd := Min(end, stop) - start;
      if |bytes| < sliceEnd {
        TooShort(chunks, get, plain, i);
        return Err(Other), asked;
      }
      Copies(chunks, size, get, plain, offset, end, i, was, out.bytes);
      out.bytes := out.bytes + bytes[sliceStart..sliceEnd];
      i := i + 1;
    }
    Ends(chunks, size, get, plain, offset, end, was, out.bytes);
    assert chunks[..|chunks|] == chunks;
    r := Ok(());
  }

  class DepotManifestStore {
    const manifest: Manifest
    var byPath: map<string, nat>
    var children: map<string, seq<nat>>

    ghost predicate Valid()
      reads this
    {
      byPath == ByPath(manifest.files) && children == ChildrenOf(manifest.files)
    }

    constructor (manifest: Manifest)
      ensures this.manifest == manifest && Valid()
    {
      this.manifest := manifest;
      byPath := map[];
      children := map[];
      new;
      var files := manifest.files;
      for i := 0 to |files|
        invariant byPath == ByPath(files[..i]) && children == ChildrenOf(files[..i])
      {
        assert files[..i + 1][..i] == files[..i];
        byPath := AddPath(byPath, files[i], i);
        children := AddChild(children, files[i], i);
      }
      assert files[..|files|] == files;
    }

    function IndexOf(path: string): Option<nat>
      reads this
    {
      var p := StripLeadingSlash(path);
      if p in byPath then Some(byPath[p]) else None
    }

    predicate Known(prefix: string)
      reads this
    {
      prefix in byPath || prefix in children
    }

    /** `missing` is the shortest prefix of `path`, cut at a component's end, that is neither a
        file nor a directory; none if there is no such prefix. */
    ghost predicate IsFirstMissing(path: string, missing: Option<string>)
      reads this
    {
      if path == "" then missing == None
      else if missing == None then forall i | Boundary(path, i) :: Known(path[..i])
      else
        exists i | Boundary(path, i) ::
          && missing == Some(path[..i]) && !Known(path[..i])
          && forall j | Boundary(path, j) && j < i :: Known(path[..j])
    }

    method FirstMissingComponent(path: string) returns (missing: Option<string>)
      ensures IsFirstMissing(path, missing)
    {
      if path == "" {
        return None;
      }
      var end := 0;
      while true
        invariant 0 <= end <= |path|
        invariant forall j | Boundary(path, j) && j < end :: Known(path[..j])
        decreases |path| - end
      {
        var next := end;
        while next < |path| && path[next] != '/'
          invariant end <= next <= |path|
          invariant forall j | end <= j < next :: path[j] != '/'
        {
          next := next + 1;
        }
        var prefix := path[..next];
        if !Known(prefix) {
          assert Boundary(path, next);
          return Some(prefix);
        }
        if next == |path| {
          return None;
        }
        end := next + 1;
      }
    }

    method Metadata(path: string) returns (r: Result<Meta, IoError>)
      requires Valid()
      ensures path == "" || path == "/" ==> r == Ok(Meta(0, Directory))
      ensures path != "" && path != "/" ==>
                match IndexOf(path)
                case Some(i) =>
                  && i < |manifest.files|
                  && r == Ok(Meta(manifest.files[i].size, manifest.files[i].kind))
                case None =>
                  r.Err? && r.error.NotFound? && IsFirstMissing(StripLeadingSlash(path), r.error.missing)
    {
      if path == "" || path == "/" {
        return Ok(Meta(0, Directory));
      }
      var p := StripLeadingSlash(path);
      ByPathFinds(manifest.files, p);
      if p !in byPath {
        var missing := FirstMissingComponent(p);
        return Err(NotFound(missing));
      }
      var f := manifest.files[byPath[p]];
      r := Ok(Meta(f.size, f.kind));
    }

    /** One entry per direct child, in manifest order: its last component, size and kind. A
        directory without children is not found. */
    method ListDir(path: string) returns (r: Result<seq<(string, Meta)>, IoError>)
      requires Valid()
      ensures var key := if path == "" || path == "/" then "" else StripLeadingSlash(path);
              var idxs := IndexesIn(manifest.files, key);
              && (r.Ok? <==> idxs != [])
              && (r.Ok? ==> |r.value| == |idxs|)
              && (r.Ok? ==> forall k | 0 <= k < |idxs| ::
                    idxs[k] < |manifest.files| && EntryShows(r.value[k], manifest.files[idxs[k]]))
              && (r.Err? ==> r.error.NotFound? && IsFirstMissing(key, r.error.missing))
    {
      hide IndexesIn, ChildrenOf, ByPath, FileName, ParentKey, StripLeadingSlash, IsFirstMissing;
      var key := if path == "" || path == "/" then "" else StripLeadingSlash(path);
      ChildrenAreIndexes(manifest.files, key);
      IndexesAreExact(manifest.files, key);
      if key !in children {
        var missing := FirstMissingComponent(key);
        return Err(NotFound(missing));
      }
      var idxs := children[key];
      var out := [];
      for k := 0 to |idxs|
        invariant |out| == k
        invariant forall l | 0 <= l < k :: EntryShows(out[l], manifest.files[idxs[l]])
      {
        var f := manifest.files[idxs[k]];
        var name := FileName(f.path);
        out := out + [(if name.Some? then name.value else f.path, Meta(f.size, f.kind))];
      }
      r := Ok(out);
    }

    /** The file a read of `path` is about, or why there is none. */
    ghost predicate Readable(path: string, offset: nat)
      reads this
    {
      match IndexOf(path)
      case Some(i) =>
        i < |manifest.files| && manifest.files[i].kind.File? && offset <= manifest.files[i].size
      case None => false
    }

    ghost function ChunksAt(path: string): seq<Chunk>
      requires Readable(path, 0)
      reads this
    {
      manifest.files[IndexOf(path).value].kind.chunks
    }

    ghost function SizeAt(path: string): nat
      requires Readable(path, 0)
      reads this
    {
      manifest.files[IndexOf(path).value].size
    }

    /** Append the bytes of `path` in `[offset, offset + len)`, cut off at the end of the file.
        `asked` are the chunks requested from the store. On a store error the vector keeps what
        was appended before. */
    method ReadInto(path: string, offset: nat, len: nat, get: Sha -> Option<Bytes>, out: ByteVec, ghost plain: Sha -> Bytes)
      returns (r: Result<(), IoError>, ghost asked: seq<Sha>)
      requires Valid() && offset + len < U64
      modifies out
      ensures IndexOf(path).None? ==>
                && r.Err? && r.error.NotFound? && IsFirstMissing(StripLeadingSlash(path), r.error.missing)
                && out.bytes == old(out.bytes) && asked == []
      ensures IndexOf(path).Some? && !Readable(path, offset) ==>
                r == Err(InvalidInput) && out.bytes == old(out.bytes) && asked == []
      ensures Readable(path, offset) && Contiguous(ChunksAt(path), SizeAt(path)) ==>
                var wanted := Wanted(ChunksAt(path), offset, Min(offset + len, SizeAt(path)));
                && asked <= wanted
                && (r.Ok? ==> asked == wanted)
                && (r.Err? ==> r.error.Other? && asked != [])
      ensures Readable(path, offset) && r.Err? ==>
                asked != [] && Lacking(ChunksAt(path), get, plain, asked[|asked| - 1])
      ensures Readable(path, offset) && Contiguous(ChunksAt(path), SizeAt(path))
              && RightLengths(ChunksAt(path), plain) && Agrees(get, plain) ==>
                var content := Content(ChunksAt(path), plain);
                var end := Min(offset + len, SizeAt(path));
                && |content| == SizeAt(path)
                && (r.Ok? ==> out.bytes == old(out.bytes) + content[offset..end])
                && (r.Err? ==> old(out.bytes) <= out.bytes <= old(out.bytes) + content[offset..end])
      ensures old(out.bytes) <= out.bytes
    {
      asked := [];
      var p := StripLeadingSlash(path);
      ByPathFinds(manifest.files, p);
      if p !in byPath {
        var missing := FirstMissingComponent(p);
        return Err(NotFound(missing)), asked;
      }
      var f := manifest.files[byPath[p]];
      if !f.kind.File? {
        return Err(InvalidInput), asked;
      }
      if offset > f.size {
        return Err(InvalidInput), asked;
      }
      var end := Min(offset + len, f.size);
      r, asked := CopyChunks(f.kind.chunks, f.size, offset, end, get, out, plain);
    }
  }

  /** A path finds the last file the manifest has at it, with or without one slash before it. */
  lemma {:induction false} SlashDoesNotMatter(store: DepotManifestStore, path: string)
    requires store.Valid()
    ensures store.IndexOf("/" + path) == Lookup(store.manifest.files, path)
    ensures path == "" || path[0] != '/' ==> store.IndexOf(path) == store.IndexOf("/" + path)
  {
    SlashIsStripped(path);
  }

  /** What counts as there when the first missing component is looked for: the path of a file, and a
      directory some file is in. */
  lemma {:induction false} KnownIff(store: DepotManifestStore, prefix: string)
    requires store.Valid()
    ensures var files := store.manifest.files;
            store.Known(prefix) <==>
              exists i | 0 <= i < |files| :: files[i].path == prefix || ParentKey(files[i].path) == prefix
  {
    hide ByPath, ChildrenOf, IndexesIn, ParentKey;
    var files := store.manifest.files;
    ByPathFinds(files, prefix);
    ChildrenAreIndexes(files, prefix);
    IndexesAreExact(files, prefix);
    if prefix in store.children {
      assert ParentKey(files[IndexesIn(files, prefix)[0]].path) == prefix;
    }
    if i :| 0 <= i < |files| && ParentKey(files[i].path) == prefix {
      IndexesAreAll(files, prefix, i);
    }
  }
}
