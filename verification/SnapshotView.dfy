/** Looking up and listing inside a mounted snapshot, in terms of node ids. */
module SnapshotView {
  import opened Prelude
  import opened Paths
  import opened Inode
  import opened Manifests
  import ManifestFs

  datatype NodeKind = Dir | Regular(executable: bool) | Link(target: string)

  datatype Node = Node(ino: nat, kind: NodeKind, size: nat, mtime: nat)

  function KindOf(kind: FileKind, executable: bool): NodeKind {
    match kind
    case Directory => Dir
    case Symlink(target) => Link(target)
    case File(_, _) => Regular(executable)
  }

  function Executable(f: DepotFile): bool { f.kind.File? && f.kind.executable }

  /** File indexes leave room for the root below 2^48. */
  predicate Addressable(m: Manifest) {
    |m.files| < INDEXES
  }

  /** Within a snapshot, index 0 is its root and index n + 1 the n-th file of the manifest. */
  function PathWithin(m: Manifest, idx: nat): Option<string> {
    if idx == 0 then Some("")
    else if idx - 1 < |m.files| then Some(m.files[idx - 1].path)
    else None
  }

  function SnapshotNode(m: Manifest, ino: nat): Option<Node> {
    var idx := Unpack(ino).1;
    if idx == 0 then Some(Node(ino, Dir, 0, m.creationTime))
    else if idx - 1 < |m.files| then
      var f := m.files[idx - 1];
      Some(Node(ino, KindOf(f.kind, Executable(f)), f.size, m.creationTime))
    else None
  }

  function SnapshotChild(m: Manifest, parent: nat, name: string): Option<Node>
    requires Addressable(m) && parent < U64
  {
    var (sid, idx) := Unpack(parent);
    match PathWithin(m, idx)
    case None => None
    case Some(dir) =>
      match Lookup(m.files, StripLeadingSlash(Join(dir, name)))
      case None => None
      case Some(i) => SnapshotNode(m, Pack(sid, i + 1))
  }

  /** The node of file `i` of the manifest mounted as snapshot `sid`. */
  function FileNode(m: Manifest, sid: nat, i: nat): (node: Node)
    requires Addressable(m) && sid <= MAX_SNAPSHOT && i < |m.files|
    ensures node.ino == Pack(sid, i + 1)
  {
    var f := m.files[i];
    Node(Pack(sid, i + 1), KindOf(f.kind, Executable(f)), f.size, m.creationTime)
  }

  /** Where a path leads: the root, or the file the index has for it. */
  function NodeAt(m: Manifest, sid: nat, path: string): Option<nat>
    requires Addressable(m) && sid <= MAX_SNAPSHOT
  {
    if path == "" then Some(Pack(sid, 0))
    else
      match Lookup(m.files, path)
      case None => None
      case Some(i) => Some(Pack(sid, i + 1))
  }

  /** One lookup below the directory that lies at `dir`. */
  lemma ChildAt(m: Manifest, sid: nat, idx: nat, dir: string, name: string)
    requires Addressable(m) && sid <= MAX_SNAPSHOT && idx <= |m.files| && PathWithin(m, idx) == Some(dir)
    requires (dir == "" || Normalised(dir)) && SlashFree(name)
    ensures SnapshotChild(m, Pack(sid, idx), name) ==
              match Lookup(m.files, Join(dir, name))
              case None => None
              case Some(i) => Some(FileNode(m, sid, i))
  {
    hide Lookup, Normalised;
    PackUnpack(sid, idx);
    if dir != "" {
      SplitJoins(dir);
    }
    assert StripLeadingSlash(Join(dir, name)) == Join(dir, name);
    match Lookup(m.files, Join(dir, name))
    case None =>
    case Some(i) => PackUnpack(sid, i + 1);
  }

  // ---- What a node says ----

  /** The node shows the file as the manifest has it. */
  ghost predicate Shows(node: Node, f: DepotFile, m: Manifest) {
    && (node.kind.Dir? <==> f.kind.Directory?)
    && (forall target :: node.kind == Link(target) <==> f.kind == Symlink(target))
    && (f.kind.File? ==> node.kind == Regular(f.kind.executable))
    && node.size == f.size && node.mtime == m.creationTime
  }

  /** Node 0 of a snapshot is its root directory, and node n + 1 shows its n-th file; there are no
      others. */
  lemma NodeShowsFile(m: Manifest, ino: nat)
    ensures var r, idx := SnapshotNode(m, ino), Unpack(ino).1;
            && (r.Some? <==> idx <= |m.files|)
            && (idx == 0 ==> r == Some(Node(ino, Dir, 0, m.creationTime)))
            && (0 < idx <= |m.files| ==> r.value.ino == ino && Shows(r.value, m.files[idx - 1], m))
  {}

  /** What is found under a name shows the file of that path, under the id of its place in the
      manifest. */
  lemma ChildShowsFile(m: Manifest, parent: nat, name: string) returns (i: nat)
    requires Addressable(m) && parent < U64 && SnapshotChild(m, parent, name).Some?
    ensures var (sid, idx) := Unpack(parent);
            var node := SnapshotChild(m, parent, name).value;
            && i < |m.files| && idx <= |m.files|
            && m.files[i].path
               == StripLeadingSlash(Join(if idx == 0 then "" else m.files[idx - 1].path, name))
            && sid <= MAX_SNAPSHOT && node.ino == Pack(sid, i + 1) && Shows(node, m.files[i], m)
  {
    hide Lookup, Join, StripLeadingSlash, Shows;
    var (sid, idx) := Unpack(parent);
    UnpackPack(parent);
    i := Lookup(m.files, StripLeadingSlash(Join(PathWithin(m, idx).value, name))).value;
    PackUnpack(sid, i + 1);
    NodeShowsFile(m, Pack(sid, i + 1));
  }

  // ---- Walking a path ----

  /** The node reached from the snapshot's root by one lookup per name. */
  function Walk(m: Manifest, sid: nat, names: seq<string>): Option<nat>
    requires Addressable(m) && sid <= MAX_SNAPSHOT
  {
    if names == [] then Some(Pack(sid, 0))
    else
      match Walk(m, sid, names[..|names| - 1])
      case None => None
      case Some(parent) =>
        if parent >= U64 then None
        else
          match SnapshotChild(m, parent, names[|names| - 1])
          case None => None
          case Some(node) => Some(node.ino)
  }

  ghost predicate PrefixesListed(m: Manifest, names: seq<string>) {
    forall k | 1 <= k <= |names| :: Lookup(m.files, PathOf(names[..k])).Some?
  }

  lemma PrefixesListedLast(m: Manifest, names: seq<string>)
    requires names != []
    ensures PrefixesListed(m, names) <==>
              PrefixesListed(m, names[..|names| - 1]) && Lookup(m.files, PathOf(names)).Some?
  {
    hide Lookup, PathOf;
    var before := names[..|names| - 1];
    assert names[..|names|] == names;
    forall k | 1 <= k < |names| ensures Lookup(m.files, PathOf(names[..k])) == Lookup(m.files, PathOf(before[..k])) {
      assert names[..k] == before[..k];
    }
  }

  /** One step of a walk, from the node of `dir` to the node of `dir/name`. */
  lemma WalkStep(m: Manifest, sid: nat, dir: string, name: string)
    requires Addressable(m) && sid <= MAX_SNAPSHOT && ValidName(name) && (dir == "" || Normalised(dir))
    requires NodeAt(m, sid, dir).Some?
    ensures Join(dir, name) != ""
    ensures var parent := NodeAt(m, sid, dir).value;
            && parent < U64
            && (match SnapshotChild(m, parent, name)
                case None => NodeAt(m, sid, Join(dir, name)) == None
                case Some(node) => NodeAt(m, sid, Join(dir, name)) == Some(node.ino))
  {
    hide Lookup, SnapshotChild, Normalised;
    var idx := if dir == "" then 0 else Lookup(m.files, dir).value + 1;
    ChildAt(m, sid, idx, dir, name);
  }

  /** Walking component by component finds a node if and only if every prefix of the path has an
      entry, and then it is the node of the whole path. */
  lemma {:induction false} WalkIff(m: Manifest, sid: nat, names: seq<string>)
    requires Addressable(m) && sid <= MAX_SNAPSHOT
    requires forall n | n in names :: ValidName(n)
    ensures Walk(m, sid, names) == if PrefixesListed(m, names) then NodeAt(m, sid, PathOf(names)) else None
    ensures PrefixesListed(m, names) ==> Walk(m, sid, names).Some?
  {
    if names != [] {
      hide Lookup, SnapshotChild, PrefixesListed, Pack, FileNode, Normalised, Join;
      var before, last := names[..|names| - 1], names[|names| - 1];
      assert last in names;
      assert forall n | n in before :: n in names;
      WalkIff(m, sid, before);
      PrefixesListedLast(m, names);
      PathOfNormalised(before);
      PathOfNormalised(names);
      if PrefixesListed(m, before) {
        WalkStep(m, sid, PathOf(before), last);
      }
    }
  }

  lemma {:induction false} AncestorsFollow(m: Manifest, names: seq<string>)
    requires forall n | n in names :: ValidName(n)
    requires AncestorsListed(m.files) && (names == [] || Lookup(m.files, PathOf(names)).Some?)
    ensures PrefixesListed(m, names)
  {
    if names != [] {
      hide PrefixesListed, Normalised;
      var before, last := names[..|names| - 1], names[|names| - 1];
      assert last in names;
      assert forall n | n in before :: n in names;
      JoinSplits(PathOf(before), last);
      PrefixesListedLast(m, names);
      PathOfNormalised(before);
      if before != [] {
        SplitJoins(PathOf(before));
      }
      AncestorsFollow(m, before);
    } else {
      assert PrefixesListed(m, names);
    }
  }

  lemma LastPrefix(m: Manifest, names: seq<string>)
    requires names != [] && PrefixesListed(m, names)
    ensures Lookup(m.files, PathOf(names)).Some?
  {
    assert names[..|names|] == names;
  }

  /** With an entry for every ancestor directory, walking a path agrees with looking the whole
      path up: it reaches that node, or fails when the path is absent. */
  lemma WalkAgreesWithIndex(m: Manifest, sid: nat, path: string)
    requires Addressable(m) && sid <= MAX_SNAPSHOT && AncestorsListed(m.files) && Normalised(path)
    ensures Walk(m, sid, Components(path)) ==
              match Lookup(m.files, path)
              case Some(i) => Some(Pack(sid, i + 1))
              case None => None
  {
    hide Lookup, Pack, Walk, AncestorsListed, Normalised, Components, PathOf, LastSlash, PrefixesListed, ParentKey, Join;
    var names := Components(path);
    PathOfComponents(path);
    SplitJoins(path);
    WalkIff(m, sid, names);
    if Lookup(m.files, path).Some? {
      AncestorsFollow(m, names);
    } else if PrefixesListed(m, names) {
      LastPrefix(m, names);
    }
  }

  // ---- Listing ----

  ghost predicate WellFormed(m: Manifest) {
    Addressable(m) && UniquePaths(m.files) && NormalisedPaths(m.files)
  }

  /** A listing of the directory `ino`: every entry is what looking its name up returns, every
      name that can be looked up is listed, and names are strictly increasing. */
  ghost predicate Lists(m: Manifest, ino: nat, entries: seq<(string, Node)>)
    requires Addressable(m) && ino < U64
  {
    && (forall k | 0 <= k < |entries| ::
          SlashFree(entries[k].0) && SnapshotChild(m, ino, entries[k].0) == Some(entries[k].1))
    && (forall name | SlashFree(name) && SnapshotChild(m, ino, name).Some? ::
          (name, SnapshotChild(m, ino, name).value) in entries)
    && SortedByName(entries) && DistinctNames(entries)
  }

  /** Entries have ids of their own, none of them 0. */
  ghost predicate DistinctIds(entries: seq<(string, Node)>) {
    && (forall k | 0 <= k < |entries| :: entries[k].1.ino != 0)
    && (forall k, l | 0 <= k < l < |entries| :: entries[k].1.ino != entries[l].1.ino)
  }

  /** The entry of file `i` in a listing of its directory. */
  function EntryOf(m: Manifest, sid: nat, i: nat): (string, Node)
    requires Addressable(m) && sid <= MAX_SNAPSHOT && i < |m.files|
  {
    (BaseName(m.files[i].path), FileNode(m, sid, i))
  }

  /** In a well-formed manifest a file of `dir` is found under its own name. */
  lemma EntryIsFound(m: Manifest, sid: nat, idx: nat, dir: string, i: nat)
    requires WellFormed(m) && sid <= MAX_SNAPSHOT && idx <= |m.files| && i < |m.files|
    requires PathWithin(m, idx) == Some(dir) && ParentKey(m.files[i].path) == dir
    ensures Join(dir, BaseName(m.files[i].path)) == m.files[i].path
    ensures StripLeadingSlash(m.files[i].path) == m.files[i].path
    ensures Lookup(m.files, m.files[i].path) == Some(i)
    ensures SlashFree(BaseName(m.files[i].path))
    ensures SnapshotChild(m, Pack(sid, idx), BaseName(m.files[i].path)) == Some(FileNode(m, sid, i))
  {
    hide Lookup, LastSlash, SnapshotChild, FileNode, StripLeadingSlash, Join;
    var path := m.files[i].path;
    SplitJoins(path);
    ByPathUnique(m.files, i);
    ChildAt(m, sid, idx, dir, BaseName(path));
  }

  /** What is found below `dir` is a file of `dir`. */
  lemma FoundIsEntry(m: Manifest, sid: nat, idx: nat, dir: string, name: string) returns (i: nat)
    requires WellFormed(m) && sid <= MAX_SNAPSHOT && idx <= |m.files| && SlashFree(name)
    requires PathWithin(m, idx) == Some(dir) && SnapshotChild(m, Pack(sid, idx), name).Some?
    ensures i < |m.files| && ParentKey(m.files[i].path) == dir
    ensures EntryOf(m, sid, i) == (name, SnapshotChild(m, Pack(sid, idx), name).value)
  {
    hide Lookup, LastSlash, SnapshotChild, FileNode, Normalised, ParentKey, BaseName;
    ChildAt(m, sid, idx, dir, name);
    JoinSplits(dir, name);
    i := Lookup(m.files, Join(dir, name)).value;
  }

  lemma FindsOutside(m: Manifest, sid: nat, idx: nat, name: string)
    requires WellFormed(m) && sid <= MAX_SNAPSHOT && idx <= |m.files| && SlashFree(name)
    requires SnapshotChild(m, Pack(sid, idx), name).Some?
    ensures IndexesIn(m.files, PathWithin(m, idx).value) != []
  {
    hide IndexesIn, SnapshotChild, Lookup, ParentKey, BaseName, Join, LastSlash, Normalised;
    var dir := PathWithin(m, idx).value;
    var i := FoundIsEntry(m, sid, idx, dir, name);
    IndexesAreAll(m.files, dir, i);
  }

  /** Below a file, an empty directory or an id of no file, nothing is found. */
  lemma NothingListed(m: Manifest, ino: nat)
    requires WellFormed(m) && ino < U64
    requires var dir := PathWithin(m, Unpack(ino).1); dir.Some? ==> IndexesIn(m.files, dir.value) == []
    ensures Lists(m, ino, [])
  {
    hide IndexesIn, Lookup, ParentKey, BaseName, Join, LastSlash, Normalised, Unpack, Pack;
    var (sid, idx) := Unpack(ino);
    UnpackPack(ino);
    forall name | SlashFree(name) ensures SnapshotChild(m, ino, name) == None {
      if SnapshotChild(m, ino, name).Some? {
        FindsOutside(m, sid, idx, name);
      }
    }
  }

  /** The store's index, in terms of the manifest alone. */
  method FileIndex(store: ManifestFs.DepotManifestStore, path: string) returns (i: Option<nat>)
    requires store.Valid()
    ensures i == Lookup(store.manifest.files, StripLeadingSlash(path))
  {
    i := store.IndexOf(path);
  }

  method ListChildren(store: ManifestFs.DepotManifestStore, idx: nat, dir: string)
    returns (r: Result<seq<(string, ManifestFs.Meta)>, ManifestFs.IoError>)
    requires store.Valid() && PathWithin(store.manifest, idx) == Some(dir)
    ensures WellFormed(store.manifest) ==>
              var files := store.manifest.files;
              var idxs := IndexesIn(files, dir);
              && (r.Ok? <==> idxs != [])
              && (r.Ok? ==> |r.value| == |idxs|)
              && (r.Ok? ==> forall k | 0 <= k < |idxs| ::
                    idxs[k] < |files|
                    && r.value[k] == (BaseName(files[idxs[k]].path),
                                      ManifestFs.Meta(files[idxs[k]].size, files[idxs[k]].kind)))
  {
    hide IndexesIn, BaseName, FileName, ByPath, ChildrenOf, Normalised;
    if WellFormed(store.manifest) {
      if dir != "" {
        SplitJoins(dir);
      }
      var files := store.manifest.files;
      IndexesAreExact(files, dir);
      forall i | 0 <= i < |files| ensures FileName(files[i].path) == Some(BaseName(files[i].path)) {
        FileNameOfNormalised(files[i].path);
      }
    }
    r := store.ListDir(dir);
  }

  lemma ListedIsFound(m: Manifest, sid: nat, idx: nat, dir: string, i: nat)
    requires WellFormed(m) && sid <= MAX_SNAPSHOT && idx <= |m.files| && i < |m.files|
    requires PathWithin(m, idx) == Some(dir) && ParentKey(m.files[i].path) == dir
    ensures SlashFree(EntryOf(m, sid, i).0)
    ensures SnapshotChild(m, Pack(sid, idx), EntryOf(m, sid, i).0) == Some(EntryOf(m, sid, i).1)
  {
    hide SnapshotChild, ParentKey, BaseName, Lookup;
    EntryIsFound(m, sid, idx, dir, i);
  }

  /** Files of one directory have different names. */
  lemma NamesDiffer(m: Manifest, sid: nat, idx: nat, dir: string, out: seq<(string, Node)>)
    requires WellFormed(m) && sid <= MAX_SNAPSHOT && idx <= |m.files| && PathWithin(m, idx) == Some(dir)
    requires forall l | 0 <= l < |IndexesIn(m.files, dir)| :: IndexesIn(m.files, dir)[l] < |m.files|
    requires |out| == |IndexesIn(m.files, dir)|
    requires forall l | 0 <= l < |out| :: out[l] == EntryOf(m, sid, IndexesIn(m.files, dir)[l])
    ensures DistinctNames(out)
  {
    hide SnapshotChild, IndexesIn, Lookup, ParentKey, BaseName, Join, LastSlash, Normalised;
    var idxs := IndexesIn(m.files, dir);
    IndexesAreExact(m.files, dir);
    forall k, l | 0 <= k < l < |out| ensures out[k].0 != out[l].0 {
      EntryIsFound(m, sid, idx, dir, idxs[k]);
      EntryIsFound(m, sid, idx, dir, idxs[l]);
    }
  }

  lemma ListingIsRight(m: Manifest, sid: nat, idx: nat, dir: string, out: seq<(string, Node)>)
    requires WellFormed(m) && sid <= MAX_SNAPSHOT && idx <= |m.files| && PathWithin(m, idx) == Some(dir)
    requires forall l | 0 <= l < |IndexesIn(m.files, dir)| :: IndexesIn(m.files, dir)[l] < |m.files|
    requires |out| == |IndexesIn(m.files, dir)|
    requires forall l | 0 <= l < |out| :: out[l] == EntryOf(m, sid, IndexesIn(m.files, dir)[l])
    ensures Lists(m, Pack(sid, idx), SortByName(out)) && |SortByName(out)| == |out|
  {
    hide SortByName, SnapshotChild, IndexesIn, Lookup, EntryOf, FileNode, ParentKey, BaseName, Join, LastSlash,
         UniquePaths, NormalisedPaths;
    var idxs := IndexesIn(m.files, dir);
    var sorted := SortByName(out);
    IndexesAreExact(m.files, dir);
    SortByNameKeepsEntries(out);
    SortByNameSorted(out);
    NamesDiffer(m, sid, idx, dir, out);
    SortByNameDistinct(out);
    forall k | 0 <= k < |sorted|
      ensures SlashFree(sorted[k].0) && SnapshotChild(m, Pack(sid, idx), sorted[k].0) == Some(sorted[k].1)
    {
      var l :| 0 <= l < |out| && out[l] == sorted[k];
      ListedIsFound(m, sid, idx, dir, idxs[l]);
    }
    forall name | SlashFree(name) && SnapshotChild(m, Pack(sid, idx), name).Some?
      ensures (name, SnapshotChild(m, Pack(sid, idx), name).value) in sorted
    {
      var i := FoundIsEntry(m, sid, idx, dir, name);
      IndexesAreAll(m.files, dir, i);
      var l :| 0 <= l < |idxs| && idxs[l] == i;
      assert out[l] in sorted;
    }
  }

  method SnapshotDir(store: ManifestFs.DepotManifestStore, ino: nat)
    returns (r: Option<seq<(string, Node)>>)
    requires store.Valid() && ino < U64 && Addressable(store.manifest)
    ensures WellFormed(store.manifest) ==>
              var m := store.manifest;
              var dir := PathWithin(m, Unpack(ino).1);
              && (r.Some? <==> dir.Some? && IndexesIn(m.files, dir.value) != [])
              && (r.Some? ==> r.value != [])
              && Lists(m, ino, if r.Some? then r.value else [])
  {
    hide Lookup, LastSlash, SnapshotChild, Normalised, ParentKey, BaseName, Unpack, Pack, Lists, Join,
         IndexesIn, StripLeadingSlash, ByPath, ChildrenOf, KindOf;
    var m := store.manifest;
    var (sid, idx) := Unpack(ino);
    UnpackPack(ino);
    var dir := PathWithin(m, idx);
    if WellFormed(m) && (dir == None || IndexesIn(m.files, dir.value) == []) {
      NothingListed(m, ino);
    }
    if dir == None {
      return None;
    }
    ghost var idxs := IndexesIn(m.files, dir.value);
    var listed := ListChildren(store, idx, dir.value);
    if listed.Err? {
      return None;
    }
    IndexesAreExact(m.files, dir.value);
    var out: seq<(string, Node)> := [];
    for k := 0 to |listed.value|
      invariant WellFormed(m) ==> |out| == k
      invariant WellFormed(m) ==> forall l | 0 <= l < k :: out[l] == EntryOf(m, sid, idxs[l])
    {
      var e := listed.value[k];
      if WellFormed(m) {
        EntryIsFound(m, sid, idx, dir.value, idxs[k]);
      }
      var child := FileIndex(store, Join(dir.value, e.0));
      if child == None {
        continue;
      }
      var f := m.files[child.value];
      out := out + [(e.0, Node(Pack(sid, child.value + 1), KindOf(e.1.kind, Executable(f)), e.1.size, m.creationTime))];
    }
    r := Some(SortByName(out));
    if WellFormed(m) {
      ListingIsRight(m, sid, idx, dir.value, out);
    }
  }

  /** In a listing every entry shows a file of the directory, under the file's last component. */
  lemma ListedShowsFile(m: Manifest, sid: nat, idx: nat, entries: seq<(string, Node)>, k: nat) returns (i: nat)
    requires WellFormed(m) && sid <= MAX_SNAPSHOT && idx <= |m.files|
    requires Lists(m, Pack(sid, idx), entries) && k < |entries|
    ensures i < |m.files| && entries[k].0 == BaseName(m.files[i].path)
    ensures ParentKey(m.files[i].path) == (if idx == 0 then "" else m.files[idx - 1].path)
    ensures entries[k].1.ino == Pack(sid, i + 1) && Shows(entries[k].1, m.files[i], m)
  {
    hide SnapshotChild, Lookup, ParentKey, BaseName, Join, LastSlash, Normalised, Shows;
    i := FoundIsEntry(m, sid, idx, PathWithin(m, idx).value, entries[k].0);
    PackUnpack(sid, i + 1);
    NodeShowsFile(m, Pack(sid, i + 1));
  }

  /** Entries of a listing have different node ids, none of them 0. */
  lemma ListedInosDiffer(m: Manifest, sid: nat, idx: nat, entries: seq<(string, Node)>)
    requires WellFormed(m) && sid <= MAX_SNAPSHOT && idx <= |m.files|
    requires Lists(m, Pack(sid, idx), entries)
    ensures DistinctIds(entries)
  {
    hide SnapshotChild, Lookup, ParentKey, BaseName, Join, LastSlash, Normalised;
    var dir := PathWithin(m, idx).value;
    forall k | 0 <= k < |entries|
      ensures exists i ::
                && 0 <= i < |m.files| && entries[k].1.ino == Pack(sid, i + 1)
                && entries[k].0 == BaseName(m.files[i].path)
    {
      var i := FoundIsEntry(m, sid, idx, dir, entries[k].0);
    }
  }

  /** A directory has one listing, so that the pages of separate calls are pages of one list. */
  lemma SnapshotListingIsUnique(m: Manifest, ino: nat, a: seq<(string, Node)>, b: seq<(string, Node)>)
    requires Addressable(m) && ino < U64 && Lists(m, ino, a) && Lists(m, ino, b)
    ensures a == b
  {
    hide SnapshotChild;
    SortedOrderIsUnique(a, b);
  }

  // ---- Reading a file of a snapshot ----

  /** What an access to a mounted slot ends in: its loaded snapshot, a failed opener, or no slot. */
  datatype Resolved = Loaded(store: ManifestFs.DepotManifestStore) | OpenFailed | NotMounted

  /** The snapshot of an access, if there is one, is in order. */
  ghost predicate ResolvedOk(snapshot: Resolved)
    reads if snapshot.Loaded? then {snapshot.store} else {}
  {
    snapshot.Loaded? ==> snapshot.store.Valid() && Addressable(snapshot.store.manifest)
  }

  /** File `i` has chunks that cover it, and the store's chunks are not different bytes. */
  ghost predicate Intact(m: Manifest, i: nat, get: Sha -> Option<Bytes>, plain: Sha -> Bytes)
    requires i < |m.files| && m.files[i].kind.File?
  {
    var f := m.files[i];
    Contiguous(f.kind.chunks, f.size) && RightLengths(f.kind.chunks, plain) && ManifestFs.Agrees(get, plain)
  }

  /** A file's own path leads to it. */
  lemma {:induction false} OwnPath(store: ManifestFs.DepotManifestStore, i: nat)
    requires store.Valid() && WellFormed(store.manifest) && i < |store.manifest.files|
    ensures store.IndexOf(store.manifest.files[i].path) == Some(i)
  {
    SplitJoins(store.manifest.files[i].path);
    ByPathUnique(store.manifest.files, i);
  }

  /** Reading file `i` by its path: the bytes there are of the range, unless a chunk is lacking. */
  method ReadFile(store: ManifestFs.DepotManifestStore, i: nat, offset: nat, len: nat, get: Sha -> Option<Bytes>,
                  ghost plain: Sha -> Bytes)
    returns (r: Option<Bytes>)
    requires store.Valid() && WellFormed(store.manifest) && i < |store.manifest.files| && offset + len < U64
    ensures var f := store.manifest.files[i];
            if offset > f.size || !f.kind.File? then r == None
            else
              && (r == None ==> exists sha :: ManifestFs.Lacking(f.kind.chunks, get, plain, sha))
              && (r.Some? && Intact(store.manifest, i, get, plain) ==>
                    && |Content(f.kind.chunks, plain)| == f.size
                    && r.value == Content(f.kind.chunks, plain)[offset..Min(offset + len, f.size)])
  {
    hide Content, Contiguous, RightLengths, ManifestFs.Agrees, ByPath, ManifestFs.Wanted, ManifestFs.Lacking, WellFormed;
    var buf := new ManifestFs.ByteVec();
    OwnPath(store, i);
    var read, asked := store.ReadInto(store.manifest.files[i].path, offset, len, get, buf, plain);
    r := if read.Err? then None else Some(buf.bytes);
  }
}
