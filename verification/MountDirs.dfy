/** The mount tree as a value: synthetic directories for apps and depots, an index from their
    paths, and the slot table; and what each change to it does. */
module MountDirs {
  import opened Prelude
  import opened Text
  import opened Paths
  import opened Inode
  import opened Manifests

  /** A loaded snapshot. The serial number tells one allocation from another. */
  datatype SnapshotEntry = SnapshotEntry(serial: nat, manifest: Manifest)

  /** A slot registered without its manifest names the cell its opener fills. */
  datatype SlotState = Pending(cell: nat) | Ready(entry: SnapshotEntry)

  datatype Slot = Slot(app: nat, depot: nat, gid: nat, state: SlotState, creationTime: Option<nat>)

  datatype SyntheticDir = SyntheticDir(parent: Option<nat>, name: string, children: map<string, nat>)

  /** Directory `i` has node id `i`; number 0 is unused and number 1 the root. Slot 0 is unused. */
  datatype Tree = Tree(dirs: seq<SyntheticDir>, byPath: map<string, nat>, slots: seq<Option<Slot>>)

  datatype AddError = AlreadyMounted | TooManySnapshots

  const BLANK: SyntheticDir := SyntheticDir(None, "", map[])

  function NewTree(): Tree {
    Tree([BLANK, BLANK], map[], [None])
  }

  lemma SyntheticIno(i: nat)
    requires i < INDEXES
    ensures Pack(SYNTHETIC, i) == i && Unpack(i) == (SYNTHETIC, i)
  {}

  // ---- Directories ----

  ghost predicate ParentsBelow(dirs: seq<SyntheticDir>) {
    2 <= |dirs| && forall i | 2 <= i < |dirs| :: dirs[i].parent.Some? && 1 <= dirs[i].parent.value < i
  }

  predicate IsApp(dirs: seq<SyntheticDir>, i: nat) {
    2 <= i < |dirs| && dirs[i].parent == Some(ROOT)
  }

  predicate IsDepot(dirs: seq<SyntheticDir>, i: nat) {
    2 <= i < |dirs| && dirs[i].parent.Some? && IsApp(dirs, dirs[i].parent.value)
  }

  /** A directory whose children are synthetic directories: the root or an app. */
  predicate IsContainer(dirs: seq<SyntheticDir>, i: nat) {
    i == ROOT || IsApp(dirs, i)
  }

  function PathOfDir(dirs: seq<SyntheticDir>, i: nat): string
    requires ParentsBelow(dirs) && 1 <= i < |dirs|
  {
    if i == ROOT then "" else PathOfDir(dirs, dirs[i].parent.value) + "/" + dirs[i].name
  }

  function DepotPath(app: nat, depot: nat): string {
    "/" + Decimal(app) + "/" + Decimal(depot)
  }

  predicate AppOrDepot(dirs: seq<SyntheticDir>, i: nat) {
    i < |dirs| && (IsApp(dirs, i) || IsDepot(dirs, i)) && SlashFree(dirs[i].name)
  }

  /** Two levels below the root, each name a single component. */
  ghost predicate Levels(dirs: seq<SyntheticDir>) {
    && ParentsBelow(dirs) && dirs[0] == BLANK && dirs[1].parent == None
    && forall i | 2 <= i < |dirs| :: AppOrDepot(dirs, i)
  }

  predicate NamedInParent(dirs: seq<SyntheticDir>, i: nat) {
    && i < |dirs| && dirs[i].parent.Some? && dirs[i].parent.value < |dirs|
    && dirs[i].name in dirs[dirs[i].parent.value].children
    && dirs[dirs[i].parent.value].children[dirs[i].name] == i
  }

  predicate IsSubdirectory(dirs: seq<SyntheticDir>, p: nat, name: string, c: nat) {
    2 <= c < |dirs| && dirs[c].parent == Some(p) && dirs[c].name == name
  }

  /** The children of a container are exactly the directories that name it as their parent. */
  ghost predicate Linked(dirs: seq<SyntheticDir>) {
    && (forall i | 2 <= i < |dirs| :: NamedInParent(dirs, i))
    && (forall p, n | 1 <= p < |dirs| && IsContainer(dirs, p) && n in dirs[p].children ::
          IsSubdirectory(dirs, p, n, dirs[p].children[n]))
  }

  ghost predicate HasPath(dirs: seq<SyntheticDir>, i: nat, path: string)
    requires ParentsBelow(dirs)
  {
    2 <= i < |dirs| && PathOfDir(dirs, i) == path
  }

  ghost predicate PathIndexed(dirs: seq<SyntheticDir>, byPath: map<string, nat>, i: nat)
    requires ParentsBelow(dirs) && 1 <= i < |dirs|
  {
    PathOfDir(dirs, i) in byPath && byPath[PathOfDir(dirs, i)] == i
  }

  /** The path index is exactly the inverse of `PathOfDir`. */
  ghost predicate Indexed(dirs: seq<SyntheticDir>, byPath: map<string, nat>)
    requires ParentsBelow(dirs)
  {
    && (forall i | 2 <= i < |dirs| :: PathIndexed(dirs, byPath, i))
    && (forall p | p in byPath :: HasPath(dirs, byPath[p], p))
  }

  // ---- Slots ----

  predicate Live(slots: seq<Option<Slot>>, id: nat) {
    id < |slots| && slots[id].Some?
  }

  ghost predicate Numbered(slots: seq<Option<Slot>>) {
    1 <= |slots| <= MAX_SNAPSHOT + 1 && slots[0] == None
  }

  /** The depot directory of `slot` has the snapshot root of `id` under the slot's manifest id. */
  ghost predicate ListedAs(t: Tree, slot: Slot, id: nat)
    requires id <= MAX_SNAPSHOT
  {
    var path := DepotPath(slot.app, slot.depot);
    && path in t.byPath && IsDepot(t.dirs, t.byPath[path])
    && Decimal(slot.gid) in t.dirs[t.byPath[path]].children
    && t.dirs[t.byPath[path]].children[Decimal(slot.gid)] == Pack(id, 0)
  }

  /** `child` under `name` in the depot directory `d` is the root of a live snapshot of that depot. */
  ghost predicate IsSnapshotRoot(t: Tree, d: nat, name: string, child: nat)
    requires ParentsBelow(t.dirs) && 1 <= d < |t.dirs|
  {
    var id := Unpack(child).0;
    && 1 <= id <= MAX_SNAPSHOT && child == Pack(id, 0) && Live(t.slots, id)
    && var slot := t.slots[id].value;
       name == Decimal(slot.gid) && PathOfDir(t.dirs, d) == DepotPath(slot.app, slot.depot)
  }

  /** The children of a depot directory are exactly the live slots with that app and depot. */
  ghost predicate Attached(t: Tree)
    requires ParentsBelow(t.dirs) && Numbered(t.slots)
  {
    && (forall id: nat | Live(t.slots, id) :: ListedAs(t, t.slots[id].value, id))
    && (forall d, n | 1 <= d < |t.dirs| && IsDepot(t.dirs, d) && n in t.dirs[d].children ::
          IsSnapshotRoot(t, d, n, t.dirs[d].children[n]))
  }

  ghost predicate Inv(t: Tree) {
    && Levels(t.dirs) && Linked(t.dirs) && Indexed(t.dirs, t.byPath)
    && Numbered(t.slots) && Attached(t)
  }

  lemma NewTreeInv()
    ensures Inv(NewTree())
  {}

  // ---- Making directories ----

  /** `dirs` with a new directory called `name` below `parent`. */
  function AddDir(dirs: seq<SyntheticDir>, parent: nat, name: string): (r: seq<SyntheticDir>)
    requires parent < |dirs|
    ensures |r| == |dirs| + 1
    ensures forall i | 0 <= i < |dirs| :: r[i].parent == dirs[i].parent && r[i].name == dirs[i].name
    ensures forall i | 0 <= i < |dirs| && i != parent :: r[i] == dirs[i]
    ensures r[parent].children == dirs[parent].children[name := |dirs|]
    ensures r[|dirs|] == SyntheticDir(Some(parent), name, map[])
  {
    dirs[parent := dirs[parent].(children := dirs[parent].children[name := |dirs|])]
    + [SyntheticDir(Some(parent), name, map[])]
  }

  function EnsureDir(t: Tree, parent: nat, name: string): (Tree, nat)
    requires ParentsBelow(t.dirs) && 1 <= parent < |t.dirs|
  {
    if name in t.dirs[parent].children then (t, t.dirs[parent].children[name])
    else
      var ino := |t.dirs|;
      var path := PathOfDir(t.dirs, parent) + "/" + name;
      (Tree(AddDir(t.dirs, parent, name), t.byPath[path := ino], t.slots), ino)
  }

  lemma {:induction false} PathsStay(dirs: seq<SyntheticDir>, more: seq<SyntheticDir>, i: nat)
    requires ParentsBelow(dirs) && ParentsBelow(more) && |dirs| <= |more| && 1 <= i < |dirs|
    requires forall j | 0 <= j < |dirs| :: more[j].parent == dirs[j].parent && more[j].name == dirs[j].name
    ensures PathOfDir(more, i) == PathOfDir(dirs, i)
  {
    if i != ROOT {
      PathsStay(dirs, more, dirs[i].parent.value);
    }
  }

  /** A path determines the directory above its last component, and that component. */
  lemma PathSplits(dir: string, name: string, dir': string, name': string)
    requires SlashFree(name) && SlashFree(name') && dir + "/" + name == dir' + "/" + name'
    ensures dir == dir' && name == name'
  {
    var p, p' := dir + "/" + name, dir' + "/" + name';
    LastSlashOf(dir, name);
    LastSlashOf(dir', name');
    assert p[..|dir|] == dir && p'[..|dir'|] == dir';
    assert p[|dir| + 1..] == name && p'[|dir'| + 1..] == name';
  }

  lemma SamePathSameDir(dirs: seq<SyntheticDir>, byPath: map<string, nat>, i: nat, j: nat)
    requires ParentsBelow(dirs) && Indexed(dirs, byPath)
    requires 1 <= i < |dirs| && 1 <= j < |dirs| && PathOfDir(dirs, i) == PathOfDir(dirs, j)
    ensures i == j
  {
    assert i != ROOT ==> PathIndexed(dirs, byPath, i) && PathOfDir(dirs, i) != "";
    assert j != ROOT ==> PathIndexed(dirs, byPath, j) && PathOfDir(dirs, j) != "";
  }

  lemma NotLinked(dirs: seq<SyntheticDir>, i: nat)
    requires 2 <= i < |dirs| && !NamedInParent(dirs, i)
    ensures !Linked(dirs)
  {}

  /** Below a container, a name that has no directory yet has no path in the index either. */
  lemma FreshPath(dirs: seq<SyntheticDir>, byPath: map<string, nat>, parent: nat, name: string)
    requires Levels(dirs) && Linked(dirs) && Indexed(dirs, byPath)
    requires 1 <= parent < |dirs| && SlashFree(name) && name !in dirs[parent].children
    ensures PathOfDir(dirs, parent) + "/" + name !in byPath
  {
    hide Linked;
    var path := PathOfDir(dirs, parent) + "/" + name;
    if path in byPath {
      var i := byPath[path];
      assert HasPath(dirs, i, path);
      assert AppOrDepot(dirs, i);
      var p := dirs[i].parent.value;
      PathSplits(PathOfDir(dirs, parent), name, PathOfDir(dirs, p), dirs[i].name);
      SamePathSameDir(dirs, byPath, parent, p);
      assert !NamedInParent(dirs, i);
      NotLinked(dirs, i);
    }
  }

  lemma AddDirKeepsLevels(dirs: seq<SyntheticDir>, parent: nat, name: string)
    requires Levels(dirs) && 1 <= parent < |dirs| && IsContainer(dirs, parent) && SlashFree(name)
    ensures Levels(AddDir(dirs, parent, name))
  {
    hide AddDir;
    var more, n := AddDir(dirs, parent, name), |dirs|;
    assert ParentsBelow(more);
    forall i | 2 <= i < |more| ensures AppOrDepot(more, i) {
      if i < n {
        assert AppOrDepot(dirs, i);
      }
    }
  }

  lemma AddDirKeepsLinks(dirs: seq<SyntheticDir>, parent: nat, name: string)
    requires Levels(dirs) && Linked(dirs)
    requires 1 <= parent < |dirs| && name !in dirs[parent].children
    ensures Linked(AddDir(dirs, parent, name))
  {
    hide AddDir, Levels;
    var more, n := AddDir(dirs, parent, name), |dirs|;
    forall i | 2 <= i < |more| ensures NamedInParent(more, i) {
      if i < n {
        assert NamedInParent(dirs, i);
      }
    }
    forall p, k | 1 <= p < |more| && IsContainer(more, p) && k in more[p].children
      ensures IsSubdirectory(more, p, k, more[p].children[k])
    {
      if p < n && !(p == parent && k == name) {
        assert IsContainer(dirs, p) && k in dirs[p].children;
        assert IsSubdirectory(dirs, p, k, dirs[p].children[k]);
      }
    }
  }

  lemma AddDirKeepsIndex(dirs: seq<SyntheticDir>, byPath: map<string, nat>, parent: nat, name: string)
    requires ParentsBelow(dirs) && Indexed(dirs, byPath)
    requires 1 <= parent < |dirs| && ParentsBelow(AddDir(dirs, parent, name))
    requires PathOfDir(dirs, parent) + "/" + name !in byPath
    ensures PathOfDir(AddDir(dirs, parent, name), |dirs|) == PathOfDir(dirs, parent) + "/" + name
    ensures Indexed(AddDir(dirs, parent, name), byPath[PathOfDir(dirs, parent) + "/" + name := |dirs|])
  {
    hide AddDir;
    var more, n := AddDir(dirs, parent, name), |dirs|;
    var path := PathOfDir(dirs, parent) + "/" + name;
    var byPath' := byPath[path := n];
    PathsStay(dirs, more, parent);
    assert PathOfDir(more, n) == path;
    forall i | 2 <= i < |more| ensures PathIndexed(more, byPath', i) {
      if i < n {
        PathsStay(dirs, more, i);
        assert PathIndexed(dirs, byPath, i);
      }
    }
    forall p | p in byPath' ensures HasPath(more, byPath'[p], p) {
      if p != path {
        assert HasPath(dirs, byPath[p], p);
        PathsStay(dirs, more, byPath[p]);
      }
    }
  }

  lemma AddDirKeepsSlots(t: Tree, t': Tree, parent: nat, name: string)
    requires ParentsBelow(t.dirs) && ParentsBelow(t'.dirs) && Numbered(t.slots) && Attached(t)
    requires 1 <= parent < |t.dirs| && IsContainer(t.dirs, parent)
    requires t'.dirs == AddDir(t.dirs, parent, name) && t'.slots == t.slots
    requires forall p | p in t.byPath :: p in t'.byPath && t'.byPath[p] == t.byPath[p]
    ensures Attached(t')
  {
    hide AddDir, DepotPath, Unpack, Pack;
    forall id: nat | Live(t'.slots, id) ensures ListedAs(t', t'.slots[id].value, id) {
      assert ListedAs(t, t.slots[id].value, id);
    }
    forall d, n | 1 <= d < |t'.dirs| && IsDepot(t'.dirs, d) && n in t'.dirs[d].children
      ensures IsSnapshotRoot(t', d, n, t'.dirs[d].children[n])
    {
      PathsStay(t.dirs, t'.dirs, d);
      assert IsDepot(t.dirs, d);
      assert IsSnapshotRoot(t, d, n, t.dirs[d].children[n]);
    }
  }

  /** Nothing but `parent` and a new directory at the end differs. */
  ghost predicate Extends(t: Tree, t': Tree)
    requires ParentsBelow(t.dirs)
  {
    && ParentsBelow(t'.dirs) && t'.slots == t.slots && |t.dirs| <= |t'.dirs| <= |t.dirs| + 1
    && (forall i | 1 <= i < |t.dirs| ::
          PathOfDir(t'.dirs, i) == PathOfDir(t.dirs, i) && t'.dirs[i].parent == t.dirs[i].parent)
    && (forall i | 1 <= i < |t.dirs| && IsDepot(t.dirs, i) :: t'.dirs[i] == t.dirs[i])
  }

  /** `d` is the directory called `name` below `parent`; if it had to be made, it is empty. */
  ghost predicate DirAt(t: Tree, t': Tree, parent: nat, name: string, d: nat)
    requires ParentsBelow(t.dirs) && ParentsBelow(t'.dirs) && 1 <= parent < |t.dirs|
  {
    && 2 <= d < |t'.dirs| && t'.dirs[d].parent == Some(parent)
    && PathOfDir(t'.dirs, d) == PathOfDir(t.dirs, parent) + "/" + name
    && t'.byPath.Keys == t.byPath.Keys + {PathOfDir(t.dirs, parent) + "/" + name}
    && (|t'.dirs| > |t.dirs| ==> d == |t.dirs| && t'.dirs[d].children == map[])
  }

  lemma LevelsHaveParents(dirs: seq<SyntheticDir>)
    requires Levels(dirs)
    ensures ParentsBelow(dirs)
  {}

  lemma DepotsStay(dirs: seq<SyntheticDir>, parent: nat, name: string)
    requires 1 <= parent < |dirs| && IsContainer(dirs, parent) && ParentsBelow(dirs)
    ensures forall i | 1 <= i < |dirs| && IsDepot(dirs, i) :: AddDir(dirs, parent, name)[i] == dirs[i]
  {}

  lemma MakesDir(t: Tree, parent: nat, name: string)
    requires Inv(t) && 1 <= parent < |t.dirs| && IsContainer(t.dirs, parent) && SlashFree(name)
    requires name !in t.dirs[parent].children
    ensures var (t', d) := EnsureDir(t, parent, name);
            Inv(t') && Extends(t, t') && DirAt(t, t', parent, name, d)
  {
    hide AddDir, Levels, Linked, Indexed, Attached, IsContainer, SlashFree, PathOfDir;
    LevelsHaveParents(t.dirs);
    var (t', d) := EnsureDir(t, parent, name);
    AddDirKeepsLevels(t.dirs, parent, name);
    LevelsHaveParents(t'.dirs);
    AddDirKeepsLinks(t.dirs, parent, name);
    FreshPath(t.dirs, t.byPath, parent, name);
    AddDirKeepsIndex(t.dirs, t.byPath, parent, name);
    AddDirKeepsSlots(t, t', parent, name);
    forall i | 1 <= i < |t.dirs| ensures PathOfDir(t'.dirs, i) == PathOfDir(t.dirs, i) {
      PathsStay(t.dirs, t'.dirs, i);
    }
    DepotsStay(t.dirs, parent, name);
  }

  lemma FindsDir(t: Tree, parent: nat, name: string)
    requires Inv(t) && 1 <= parent < |t.dirs| && IsContainer(t.dirs, parent)
    requires name in t.dirs[parent].children
    ensures var d := t.dirs[parent].children[name];
            && 2 <= d < |t.dirs| && t.dirs[d].parent == Some(parent)
            && PathOfDir(t.dirs, d) == PathOfDir(t.dirs, parent) + "/" + name
            && PathOfDir(t.dirs, parent) + "/" + name in t.byPath
  {
    var d := t.dirs[parent].children[name];
    assert IsSubdirectory(t.dirs, parent, name, d);
    assert PathIndexed(t.dirs, t.byPath, d);
  }

  /** What `EnsureDir` does: the directory of that name below `parent`, made if need be; nothing
      else changes. */
  lemma EnsureDirWorks(t: Tree, parent: nat, name: string)
    requires Inv(t) && 1 <= parent < |t.dirs| && IsContainer(t.dirs, parent) && SlashFree(name)
    ensures var (t', d) := EnsureDir(t, parent, name);
            Inv(t') && Extends(t, t') && DirAt(t, t', parent, name, d)
  {
    if name in t.dirs[parent].children {
      hide AddDir, Levels, Linked, Indexed, Attached, IsContainer, SlashFree, PathOfDir;
      FindsDir(t, parent, name);
    } else {
      MakesDir(t, parent, name);
    }
  }
}
