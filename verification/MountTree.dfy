/** The mount tree as the object the file system back ends share. */
module MountTrees {
  import opened Prelude
  import opened Text
  import opened Paths
  import opened Inode
  import opened MountDirs
  import opened MountSlots
  import opened SnapshotView

  lemma AppDirIsContainer(t: Tree, app: nat)
    requires Inv(t)
    ensures var (t', a) := EnsureDir(t, ROOT, Decimal(app));
            1 <= a < |t'.dirs| && IsContainer(t'.dirs, a) && Inv(t') && |t'.dirs| <= |t.dirs| + 1
  {
    hide EnsureDir, Attached, Linked, Indexed;
    DecimalIsName(app);
    EnsureDirWorks(t, ROOT, Decimal(app));
  }

  lemma LiveIsListed(t: Tree, id: nat)
    requires Inv(t) && Live(t.slots, id)
    ensures ListedAs(t, t.slots[id].value, id)
  {}

  class MountTree {
    var synthetic: seq<SyntheticDir>
    var synthByPath: map<string, nat>
    var slots: seq<Option<Slot>>

    ghost function Contents(): Tree
      reads this
    {
      Tree(synthetic, synthByPath, slots)
    }

    /** The tree is in order, and directories still fit below 2^48. */
    ghost predicate Valid()
      reads this
    {
      Inv(Contents()) && |synthetic| <= INDEXES
    }

    constructor ()
      ensures Valid() && Contents() == NewTree()
    {
      synthetic := [BLANK, BLANK];
      synthByPath := map[];
      slots := [None];
      new;
      NewTreeInv();
    }

    function PathOfSynthetic(ino: nat): string
      requires Valid() && 1 <= ino < |synthetic|
      reads this
    {
      PathOfDir(synthetic, ino)
    }

    method EnsureSynthetic(parent: nat, name: string) returns (ino: nat)
      requires Valid() && |synthetic| < INDEXES && SlashFree(name)
      requires 1 <= parent < |synthetic| && IsContainer(synthetic, parent)
      modifies this`synthetic, this`synthByPath
      ensures Valid() && (Contents(), ino) == EnsureDir(old(Contents()), parent, name)
      ensures |synthetic| <= old(|synthetic|) + 1
    {
      hide Inv, AddDir, PathOfDir;
      ghost var was := Contents();
      EnsureDirWorks(was, parent, name);
      SyntheticIno(parent);
      if name in synthetic[Unpack(parent).1].children {
        return synthetic[Unpack(parent).1].children[name];
      }
      ino := Pack(SYNTHETIC, |synthetic|);
      var path := PathOfSynthetic(parent) + "/" + name;
      synthetic := AddDir(synthetic, Unpack(parent).1, name);
      synthByPath := synthByPath[path := ino];
    }

    /** Common to `Add` and `AddLazy`. */
    method ReserveSlot(app: nat, depot: nat, gid: nat, state: SlotState, hint: Option<nat>)
      returns (r: Result<nat, AddError>)
      requires Valid() && |synthetic| + 2 <= INDEXES
      modifies this
      ensures Valid() && (Contents(), r) == Reserve(old(Contents()), app, depot, gid, state, hint)
    {
      hide Inv, EnsureDir;
      ghost var was := Contents();
      ReserveWorks(was, app, depot, gid, state, hint);
      EnsureDepotWorks(was, app, depot);
      DecimalIsName(app);
      DecimalIsName(depot);
      AppDirIsContainer(was, app);
      var appDir := EnsureSynthetic(ROOT, Decimal(app));
      var depotDir := EnsureSynthetic(appDir, Decimal(depot));
      SyntheticIno(depotDir);
      var name := Decimal(gid);
      var d := Unpack(depotDir).1;
      if name in synthetic[d].children {
        return Err(AlreadyMounted);
      }
      var nextId := |slots|;
      if nextId > MAX_SNAPSHOT {
        return Err(TooManySnapshots);
      }
      slots := slots + [Some(Slot(app, depot, gid, state, CreationTime(state, hint)))];
      synthetic := WithChildren(synthetic, d, synthetic[d].children[name := Pack(nextId, 0)]);
      r := Ok(nextId);
    }

    /** Mounting a loaded snapshot. The new id is the next one, and never one used before. */
    method Add(app: nat, depot: nat, gid: nat, entry: SnapshotEntry) returns (r: Result<nat, AddError>)
      requires Valid() && |synthetic| + 2 <= INDEXES
      modifies this
      ensures Valid() && Contents() == Apply(old(Contents()), Op.Add(app, depot, gid, entry))
      ensures r == Err(AlreadyMounted) <==> Mounted(old(slots), app, depot, gid)
      ensures r.Ok? ==> r.value == old(|slots|)
                        && slots == old(slots) + [Some(Slot(app, depot, gid, Ready(entry), Some(entry.manifest.creationTime)))]
      ensures r.Err? ==> slots == old(slots)
      ensures synthByPath.Keys == old(synthByPath.Keys) + {AppPath(app), DepotPath(app, depot)}
    {
      ReserveWorks(Contents(), app, depot, gid, Ready(entry), None);
      r := ReserveSlot(app, depot, gid, Ready(entry), None);
    }

    /** Registering a manifest that is loaded when it is first needed. */
    method AddLazy(app: nat, depot: nat, gid: nat, cell: nat, creationTime: Option<nat>)
      returns (r: Result<nat, AddError>)
      requires Valid() && |synthetic| + 2 <= INDEXES
      modifies this
      ensures Valid() && Contents() == Apply(old(Contents()), Op.AddLazy(app, depot, gid, cell, creationTime))
      ensures r == Err(AlreadyMounted) <==> Mounted(old(slots), app, depot, gid)
      ensures r.Ok? ==> r.value == old(|slots|)
                        && slots == old(slots) + [Some(Slot(app, depot, gid, Pending(cell), creationTime))]
      ensures r.Err? ==> slots == old(slots)
      ensures synthByPath.Keys == old(synthByPath.Keys) + {AppPath(app), DepotPath(app, depot)}
    {
      ReserveWorks(Contents(), app, depot, gid, Pending(cell), creationTime);
      r := ReserveSlot(app, depot, gid, Pending(cell), creationTime);
    }

    method Remove(id: nat) returns (r: Option<Slot>)
      requires Valid()
      modifies this`synthetic, this`slots
      ensures Valid() && Contents() == Apply(old(Contents()), Unmount(id))
      ensures r == if id < old(|slots|) then old(slots)[id] else None
      ensures !Live(slots, id) && |slots| == old(|slots|)
      ensures forall i | 0 <= i < |slots| && i != id :: slots[i] == old(slots)[i]
    {
      hide Inv;
      RemoveWorks(Contents(), id);
      if id >= |slots| || slots[id] == None {
        return None;
      }
      ghost var was := Contents();
      LiveIsListed(was, id);
      var slot := slots[id].value;
      slots := slots[id := None];
      var path := DepotPath(slot.app, slot.depot);
      if path in synthByPath {
        var d := synthByPath[path];
        synthetic := WithChildren(synthetic, d, synthetic[d].children - {Decimal(slot.gid)});
      }
      r := Some(slot);
    }

    method Promote(id: nat, entry: SnapshotEntry)
      requires Valid()
      modifies this`slots
      ensures Valid() && Contents() == Apply(old(Contents()), Promotion(id, entry))
      ensures |slots| == old(|slots|)
      ensures forall i: nat | i < |slots| ::
                slots[i] == if i == id && old(slots)[i].Some? && old(slots)[i].value.state.Pending?
                            then Some(old(slots)[i].value.(state := Ready(entry),
                                                           creationTime := Some(entry.manifest.creationTime)))
                            else old(slots)[i]
    {
      hide Inv;
      PromoteKeepsInv(Contents(), id, entry);
      if id >= |slots| || slots[id] == None {
        return;
      }
      var slot := slots[id].value;
      if slot.state.Ready? {
        return;
      }
      slots := slots[id := Some(Slot(slot.app, slot.depot, slot.gid, Ready(entry), Some(entry.manifest.creationTime)))];
    }

    /** The id registered for a manifest: exactly that of the live slot for it. */
    method Find(app: nat, depot: nat, gid: nat) returns (r: Option<nat>)
      requires Valid()
      ensures r.Some? <==> Mounted(slots, app, depot, gid)
      ensures forall id: nat :: r == Some(id) <==> MountedAs(slots, id, app, depot, gid)
    {
      FindIff(Contents(), app, depot, gid);
      hide Inv;
      var path := DepotPath(app, depot);
      if path !in synthByPath {
        return None;
      }
      IndexedPath(Contents(), path);
      var d := synthByPath[path];
      if Decimal(gid) !in synthetic[d].children {
        return None;
      }
      r := Some(Unpack(synthetic[d].children[Decimal(gid)]).0);
    }

    // ---- Reading the prefix ----

    function Synthetic(ino: nat): Option<SyntheticDir>
      reads this
    {
      var (sid, idx) := Unpack(ino);
      if sid == SYNTHETIC && idx < |synthetic| then Some(synthetic[idx]) else None
    }

    function SlotAt(id: nat): Option<Slot>
      reads this
    {
      if id < |slots| then slots[id] else None
    }

    function NodeBelow(child: nat): Node
      reads this
    {
      var sid := Unpack(child).0;
      var slot := SlotAt(sid);
      var mtime := if sid != SYNTHETIC && slot.Some? && slot.value.creationTime.Some?
                   then slot.value.creationTime.value else 0;
      Node(child, Dir, 0, mtime)
    }

    function SyntheticChild(parent: nat, name: string): Option<Node>
      reads this
    {
      match Synthetic(parent)
      case None => None
      case Some(dir) => if name in dir.children then Some(NodeBelow(dir.children[name])) else None
    }

    ghost predicate ListsSynthetic(ino: nat, entries: seq<(string, Node)>)
      reads this
    {
      && SortedByName(entries) && DistinctNames(entries)
      && (forall k | 0 <= k < |entries| :: SyntheticChild(ino, entries[k].0) == Some(entries[k].1))
      && (forall name | SyntheticChild(ino, name).Some? :: (name, SyntheticChild(ino, name).value) in entries)
    }

    /** All children with their nodes, sorted, are the listing. */
    lemma {:induction false} SortedListing(ino: nat, out: seq<(string, Node)>)
      requires Synthetic(ino).Some? && DistinctNames(out)
      requires var children := Synthetic(ino).value.children;
               && (forall k | 0 <= k < |out| :: out[k].0 in children && out[k].1 == NodeBelow(children[out[k].0]))
               && (forall name | name in children :: (name, NodeBelow(children[name])) in out)
      ensures ListsSynthetic(ino, SortByName(out))
    {
      hide SortByName;
      var children, sorted := Synthetic(ino).value.children, SortByName(out);
      SortByNameKeepsEntries(out);
      SortByNameSorted(out);
      SortByNameDistinct(out);
      forall k | 0 <= k < |sorted|
        ensures sorted[k].0 in children && sorted[k].1 == NodeBelow(children[sorted[k].0])
      {
        var l :| 0 <= l < |out| && out[l] == sorted[k];
      }
      forall name | SyntheticChild(ino, name).Some? ensures (name, SyntheticChild(ino, name).value) in sorted {
        var l :| 0 <= l < |out| && out[l] == (name, NodeBelow(children[name]));
        assert out[l] in sorted;
      }
    }

    /** The listing of a synthetic directory has every name that looking up finds, once, in
        order, with the node looking it up gives. */
    method ListSynthetic(ino: nat) returns (r: Option<seq<(string, Node)>>)
      ensures r.Some? <==> Synthetic(ino).Some?
      ensures r.Some? ==> ListsSynthetic(ino, r.value)
    {
      hide Inv, ListsSynthetic, NodeBelow;
      var dir := Synthetic(ino);
      if dir == None {
        return None;
      }
      var children := dir.value.children;
      var left := children.Keys;
      var out: seq<(string, Node)> := [];
      while left != {}
        invariant left <= children.Keys && DistinctNames(out)
        invariant forall k | 0 <= k < |out| ::
                    out[k].0 in children && out[k].0 !in left && out[k].1 == NodeBelow(children[out[k].0])
        invariant forall name | name in children && name !in left :: (name, NodeBelow(children[name])) in out
        decreases |left|
      {
        var name :| name in left;
        out := out + [(name, NodeBelow(children[name]))];
        left := left - {name};
      }
      r := Some(SortByName(out));
      SortedListing(ino, out);
    }
  }

  /** Exactly the numbers of directories name synthetic directories. */
  lemma {:induction false} SyntheticIff(tree: MountTree, ino: nat)
    requires tree.Valid()
    ensures tree.Synthetic(ino) == if ino < |tree.synthetic| then Some(tree.synthetic[ino]) else None
  {
    if ino < |tree.synthetic| {
      SyntheticIno(ino);
    }
  }

  lemma ContainerChild(t: Tree, d: nat, name: string)
    requires Inv(t) && 1 <= d < |t.dirs| && IsContainer(t.dirs, d) && name in t.dirs[d].children
    ensures t.dirs[d].children[name] < |t.dirs|
  {
    assert IsSubdirectory(t.dirs, d, name, t.dirs[d].children[name]);
  }

  /** What a synthetic directory shows of a child: a directory of size 0; a snapshot's root shows its
      slot's time, and anything else, or a time that is not known, time 0. */
  lemma {:induction false} ChildShows(tree: MountTree, parent: nat, name: string)
    requires tree.Valid() && tree.SyntheticChild(parent, name).Some?
    ensures var node := tree.SyntheticChild(parent, name).value;
            var sid := node.ino / 281_474_976_710_656;
            && parent < |tree.synthetic| && name in tree.synthetic[parent].children
            && node.ino == tree.synthetic[parent].children[name] && node.kind == Dir && node.size == 0
            && (sid == 0 ==> node.mtime == 0)
            && (sid > 0 ==> sid < |tree.slots| && tree.slots[sid].Some?
                            && node.mtime == match tree.slots[sid].value.creationTime
                                             case Some(time) => time
                                             case None => 0)
  {
    hide Linked, Indexed, Decimal;
    var t, d := tree.Contents(), Unpack(parent).1;
    LevelsHaveParents(t.dirs);
    var child := t.dirs[d].children[name];
    if 1 <= d {
      if IsContainer(t.dirs, d) {
        ContainerChild(t, d, name);
      } else {
        assert AppOrDepot(t.dirs, d);
        assert IsSnapshotRoot(t, d, name, child);
      }
    }
  }

  lemma RootIsThere(t: Tree)
    requires Inv(t)
    ensures 2 <= |t.dirs|
  {}

  lemma SpelledAlike(t: Tree, id: nat, app: nat, depot: nat, gid: nat)
    requires Live(t.slots, id)
    requires var slot := t.slots[id].value;
             && Decimal(slot.app) == Decimal(app) && Decimal(slot.depot) == Decimal(depot)
             && Decimal(slot.gid) == Decimal(gid)
    ensures MountedAs(t.slots, id, app, depot, gid)
  {
    var slot := t.slots[id].value;
    DecimalInjective(slot.app, app);
    DecimalInjective(slot.depot, depot);
    DecimalInjective(slot.gid, gid);
  }

  /** Looking up an app, a depot and a manifest id, one below the other from the root, ends at the root
      of the snapshot mounted as that, and finds nothing exactly if there is none. */
  lemma {:induction false} WalkToSnapshot(tree: MountTree, app: nat, depot: nat, gid: nat)
    requires tree.Valid()
    ensures var a := tree.SyntheticChild(1, Decimal(app));
            var d := if a.Some? then tree.SyntheticChild(a.value.ino, Decimal(depot)) else None;
            var r := if d.Some? then tree.SyntheticChild(d.value.ino, Decimal(gid)) else None;
            && (r.Some? <==> Mounted(tree.slots, app, depot, gid))
            && (r.Some? ==> var id := r.value.ino / 281_474_976_710_656;
                            r.value.ino == id * 281_474_976_710_656 && MountedAs(tree.slots, id, app, depot, gid))
  {
    hide Inv, Decimal;
    var t := tree.Contents();
    RootIsThere(t);
    var a := tree.SyntheticChild(1, Decimal(app));
    var d := if a.Some? then tree.SyntheticChild(a.value.ino, Decimal(depot)) else None;
    var r := if d.Some? then tree.SyntheticChild(d.value.ino, Decimal(gid)) else None;
    if r.Some? {
      ChildShows(tree, 1, Decimal(app));
      ChildShows(tree, a.value.ino, Decimal(depot));
      ChildShows(tree, d.value.ino, Decimal(gid));
      FoundIsMounted(t, Decimal(app), Decimal(depot), Decimal(gid), r.value.ino);
      SpelledAlike(t, r.value.ino / 281_474_976_710_656, app, depot, gid);
    }
    if id: nat :| MountedAs(tree.slots, id, app, depot, gid) {
      MountedIsFound(t, id);
    }
  }

  /** However the children happen to be stored, an unchanged directory has one listing, so that
      the pages of separate calls are pages of the same list. */
  lemma {:induction false} SyntheticListingIsUnique(tree: MountTree, ino: nat,
                                                    a: seq<(string, Node)>, b: seq<(string, Node)>)
    requires tree.ListsSynthetic(ino, a) && tree.ListsSynthetic(ino, b)
    ensures a == b
  {
    SortedOrderIsUnique(a, b);
  }

  lemma NodesDiffer(t: Tree, d: nat, entries: seq<(string, Node)>)
    requires Inv(t) && d < |t.dirs| && DistinctNames(entries)
    requires forall k | 0 <= k < |entries| ::
               entries[k].0 in t.dirs[d].children && entries[k].1.ino == t.dirs[d].children[entries[k].0]
    ensures DistinctIds(entries)
  {
    hide Inv;
    forall k | 0 <= k < |entries| ensures entries[k].1.ino != 0 {
      ChildrenDiffer(t, d, entries[k].0, entries[k].0);
    }
    forall k, l | 0 <= k < l < |entries| ensures entries[k].1.ino != entries[l].1.ino {
      ChildrenDiffer(t, d, entries[k].0, entries[l].0);
    }
  }

  /** The ids of a synthetic listing can tell its entries apart. */
  lemma {:induction false} SyntheticIdsDiffer(tree: MountTree, ino: nat, entries: seq<(string, Node)>)
    requires tree.Valid() && tree.ListsSynthetic(ino, entries)
    ensures DistinctIds(entries)
  {
    hide Inv;
    if entries != [] {
      assert tree.SyntheticChild(ino, entries[0].0).Some?;
      NodesDiffer(tree.Contents(), Unpack(ino).1, entries);
    }
  }
}
