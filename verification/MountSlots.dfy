/** Changes to the slot table: mounting, unmounting, filling in a lazy slot; what each keeps and
    does, and what holds over any sequence of them. */
module MountSlots {
  import opened Prelude
  import opened Text
  import opened Paths
  import opened Inode
  import opened MountDirs

  predicate Names(slot: Slot, app: nat, depot: nat, gid: nat) {
    slot.app == app && slot.depot == depot && slot.gid == gid
  }

  ghost predicate MountedAs(slots: seq<Option<Slot>>, id: nat, app: nat, depot: nat, gid: nat) {
    Live(slots, id) && Names(slots[id].value, app, depot, gid)
  }

  ghost predicate Mounted(slots: seq<Option<Slot>>, app: nat, depot: nat, gid: nat) {
    exists id: nat :: MountedAs(slots, id, app, depot, gid)
  }

  lemma DecimalIsName(n: nat)
    ensures SlashFree(Decimal(n))
  {}

  lemma DepotPathInjective(app: nat, depot: nat, app': nat, depot': nat)
    requires DepotPath(app, depot) == DepotPath(app', depot')
    ensures app == app' && depot == depot'
  {
    hide Decimal;
    DecimalIsName(app);
    DecimalIsName(app');
    DecimalIsName(depot);
    DecimalIsName(depot');
    PathSplits("/" + Decimal(app), Decimal(depot), "/" + Decimal(app'), Decimal(depot'));
    assert ("/" + Decimal(app))[1..] == Decimal(app) && ("/" + Decimal(app'))[1..] == Decimal(app');
    DecimalInjective(app, app');
    DecimalInjective(depot, depot');
  }

  // ---- A depot directory and its children ----

  function WithChildren(dirs: seq<SyntheticDir>, d: nat, children: map<string, nat>): (r: seq<SyntheticDir>)
    requires d < |dirs|
    ensures |r| == |dirs| && r[d].children == children
    ensures forall i | 0 <= i < |dirs| :: r[i].parent == dirs[i].parent && r[i].name == dirs[i].name
    ensures forall i | 0 <= i < |dirs| && i != d :: r[i] == dirs[i]
  {
    dirs[d := dirs[d].(children := children)]
  }

  lemma PathsKeepIndex(dirs: seq<SyntheticDir>, dirs': seq<SyntheticDir>, byPath: map<string, nat>)
    requires ParentsBelow(dirs) && ParentsBelow(dirs') && |dirs'| == |dirs| && Indexed(dirs, byPath)
    requires forall i | 1 <= i < |dirs| :: PathOfDir(dirs', i) == PathOfDir(dirs, i)
    ensures Indexed(dirs', byPath)
  {
    hide PathOfDir;
    forall i | 2 <= i < |dirs'| ensures PathIndexed(dirs', byPath, i) {
      assert PathIndexed(dirs, byPath, i);
    }
    forall p | p in byPath ensures HasPath(dirs', byPath[p], p) {
      assert HasPath(dirs, byPath[p], p);
    }
  }

  /** What a depot directory holds is of no concern to the directories themselves. */
  lemma DepotChildrenAreApart(dirs: seq<SyntheticDir>, byPath: map<string, nat>, d: nat, children: map<string, nat>)
    requires Levels(dirs) && Linked(dirs) && Indexed(dirs, byPath) && IsDepot(dirs, d)
    ensures var dirs' := WithChildren(dirs, d, children);
            && Levels(dirs') && Linked(dirs') && Indexed(dirs', byPath)
            && forall i | 1 <= i < |dirs| :: PathOfDir(dirs', i) == PathOfDir(dirs, i)
  {
    hide WithChildren;
    var dirs' := WithChildren(dirs, d, children);
    assert ParentsBelow(dirs');
    forall i | 2 <= i < |dirs'| ensures AppOrDepot(dirs', i) && NamedInParent(dirs', i) {
      assert AppOrDepot(dirs, i) && NamedInParent(dirs, i);
    }
    forall p, n | 1 <= p < |dirs'| && IsContainer(dirs', p) && n in dirs'[p].children
      ensures IsSubdirectory(dirs', p, n, dirs'[p].children[n])
    {
      assert IsContainer(dirs, p) && n in dirs[p].children;
      assert IsSubdirectory(dirs, p, n, dirs[p].children[n]);
    }
    forall i | 1 <= i < |dirs| ensures PathOfDir(dirs', i) == PathOfDir(dirs, i) {
      PathsStay(dirs, dirs', i);
    }
    PathsKeepIndex(dirs, dirs', byPath);
  }

  /** A depot directory has a child for a manifest exactly when it is mounted: its slot's root. */
  lemma ChildIffMounted(t: Tree, d: nat, app: nat, depot: nat, gid: nat)
    requires Inv(t) && IsDepot(t.dirs, d) && PathOfDir(t.dirs, d) == DepotPath(app, depot)
    ensures Decimal(gid) in t.dirs[d].children <==> Mounted(t.slots, app, depot, gid)
    ensures Decimal(gid) in t.dirs[d].children ==>
              var id := Unpack(t.dirs[d].children[Decimal(gid)]).0;
              MountedAs(t.slots, id, app, depot, gid) && t.dirs[d].children[Decimal(gid)] == Pack(id, 0)
    ensures forall id: nat | MountedAs(t.slots, id, app, depot, gid) ::
              id <= MAX_SNAPSHOT && Decimal(gid) in t.dirs[d].children
              && t.dirs[d].children[Decimal(gid)] == Pack(id, 0)
  {
    hide Levels, Linked, Decimal, DepotPath, PathOfDir, Pack, Unpack;
    LevelsHaveParents(t.dirs);
    var name := Decimal(gid);
    if name in t.dirs[d].children {
      var child := t.dirs[d].children[name];
      assert IsSnapshotRoot(t, d, name, child);
      var slot := t.slots[Unpack(child).0].value;
      DepotPathInjective(slot.app, slot.depot, app, depot);
      DecimalInjective(slot.gid, gid);
      assert MountedAs(t.slots, Unpack(child).0, app, depot, gid);
    }
    forall id: nat | MountedAs(t.slots, id, app, depot, gid)
      ensures id <= MAX_SNAPSHOT && name in t.dirs[d].children && t.dirs[d].children[name] == Pack(id, 0)
    {
      assert ListedAs(t, t.slots[id].value, id);
      assert HasPath(t.dirs, t.byPath[DepotPath(app, depot)], DepotPath(app, depot));
      SamePathSameDir(t.dirs, t.byPath, t.byPath[DepotPath(app, depot)], d);
    }
  }

  /** No two live slots are for the same manifest of the same depot and app. */
  lemma TriplesAreUnique(t: Tree, id: nat, id': nat)
    requires Inv(t) && Live(t.slots, id) && Live(t.slots, id')
    requires var slot := t.slots[id].value; Names(t.slots[id'].value, slot.app, slot.depot, slot.gid)
    ensures id == id'
  {
    hide Levels, Linked, Indexed, Decimal, DepotPath;
    assert ListedAs(t, t.slots[id].value, id);
    assert ListedAs(t, t.slots[id'].value, id');
    PackUnpack(id, 0);
    PackUnpack(id', 0);
  }

  /** The children of a directory have node ids of their own, none of them 0. */
  lemma ChildrenDiffer(t: Tree, d: nat, name: string, name': string)
    requires Inv(t) && d < |t.dirs| && name in t.dirs[d].children && name' in t.dirs[d].children
    ensures t.dirs[d].children[name] != 0
    ensures t.dirs[d].children[name] == t.dirs[d].children[name'] ==> name == name'
  {
    hide PathOfDir, Decimal, DepotPath, Indexed;
    LevelsHaveParents(t.dirs);
    if d == ROOT || (d > ROOT && IsApp(t.dirs, d)) {
      hide Attached;
      assert IsSubdirectory(t.dirs, d, name, t.dirs[d].children[name]);
      assert IsSubdirectory(t.dirs, d, name', t.dirs[d].children[name']);
    } else if d > ROOT {
      assert AppOrDepot(t.dirs, d);
      assert IsSnapshotRoot(t, d, name, t.dirs[d].children[name]);
      assert IsSnapshotRoot(t, d, name', t.dirs[d].children[name']);
    }
  }

  // ---- Mounting ----

  /** The directory of a depot, and of its app, made if need be. */
  function EnsureDepot(t: Tree, app: nat, depot: nat): (Tree, nat)
    requires Inv(t)
  {
    DecimalIsName(app);
    EnsureDirWorks(t, ROOT, Decimal(app));
    var (t', appDir) := EnsureDir(t, ROOT, Decimal(app));
    EnsureDir(t', appDir, Decimal(depot))
  }

  function AppPath(app: nat): string { "/" + Decimal(app) }

  lemma EnsureDepotWorks(t: Tree, app: nat, depot: nat)
    requires Inv(t)
    ensures var (t', d) := EnsureDepot(t, app, depot);
            && Inv(t') && t'.slots == t.slots && |t.dirs| <= |t'.dirs| <= |t.dirs| + 2
            && IsDepot(t'.dirs, d) && PathOfDir(t'.dirs, d) == DepotPath(app, depot)
            && t'.byPath.Keys == t.byPath.Keys + {AppPath(app), DepotPath(app, depot)}
  {
    hide Levels, Linked, Indexed, Attached, Decimal, SlashFree, EnsureDir;
    DecimalIsName(app);
    DecimalIsName(depot);
    LevelsHaveParents(t.dirs);
    EnsureDirWorks(t, ROOT, Decimal(app));
    var (t1, a) := EnsureDir(t, ROOT, Decimal(app));
    assert PathOfDir(t.dirs, ROOT) + "/" + Decimal(app) == AppPath(app);
    EnsureDirWorks(t1, a, Decimal(depot));
    var (t2, d) := EnsureDir(t1, a, Decimal(depot));
    assert IsApp(t2.dirs, a);
  }

  function CreationTime(state: SlotState, hint: Option<nat>): Option<nat> {
    match state
    case Ready(entry) => Some(entry.manifest.creationTime)
    case Pending(_) => hint
  }

  /** Slot `id` and the depot directory's entry for it, put in together. */
  function Attach(t: Tree, d: nat, slot: Slot): Tree
    requires d < |t.dirs| && |t.slots| <= MAX_SNAPSHOT
  {
    var children := t.dirs[d].children[Decimal(slot.gid) := Pack(|t.slots|, 0)];
    Tree(WithChildren(t.dirs, d, children), t.byPath, t.slots + [Some(slot)])
  }

  function Reserve(t: Tree, app: nat, depot: nat, gid: nat, state: SlotState, hint: Option<nat>)
    : (Tree, Result<nat, AddError>)
    requires Inv(t)
  {
    EnsureDepotWorks(t, app, depot);
    var (t', d) := EnsureDepot(t, app, depot);
    if Decimal(gid) in t'.dirs[d].children then (t', Err(AlreadyMounted))
    else if |t'.slots| > MAX_SNAPSHOT then (t', Err(TooManySnapshots))
    else (Attach(t', d, Slot(app, depot, gid, state, CreationTime(state, hint))), Ok(|t'.slots|))
  }

  lemma DepotIsIndexed(t: Tree, d: nat)
    requires Inv(t) && IsDepot(t.dirs, d)
    ensures PathOfDir(t.dirs, d) in t.byPath && t.byPath[PathOfDir(t.dirs, d)] == d
  {
    assert PathIndexed(t.dirs, t.byPath, d);
  }

  lemma AttachKeepsInv(t: Tree, d: nat, slot: Slot)
    requires Inv(t) && |t.slots| <= MAX_SNAPSHOT && IsDepot(t.dirs, d)
    requires PathOfDir(t.dirs, d) == DepotPath(slot.app, slot.depot)
    requires Decimal(slot.gid) !in t.dirs[d].children
    ensures Inv(Attach(t, d, slot))
  {
    hide Levels, Linked, Indexed, Decimal, DepotPath, WithChildren, PathOfDir, Pack, Unpack;
    var t', n, name := Attach(t, d, slot), |t.slots|, Decimal(slot.gid);
    DepotChildrenAreApart(t.dirs, t.byPath, d, t'.dirs[d].children);
    LevelsHaveParents(t.dirs);
    LevelsHaveParents(t'.dirs);
    DepotIsIndexed(t, d);
    PackUnpack(n, 0);
    forall id: nat | Live(t'.slots, id) ensures ListedAs(t', t'.slots[id].value, id) {
      if id < n {
        assert ListedAs(t, t.slots[id].value, id);
      }
    }
    forall e, k | 1 <= e < |t'.dirs| && IsDepot(t'.dirs, e) && k in t'.dirs[e].children
      ensures IsSnapshotRoot(t', e, k, t'.dirs[e].children[k])
    {
      if !(e == d && k == name) {
        assert IsDepot(t.dirs, e) && k in t.dirs[e].children;
        assert IsSnapshotRoot(t, e, k, t.dirs[e].children[k]);
      }
    }
  }

  /** Mounting: what is refused, the id given, and what changes. Directories are made even when
      the mount itself is refused. */
  lemma ReserveWorks(t: Tree, app: nat, depot: nat, gid: nat, state: SlotState, hint: Option<nat>)
    requires Inv(t)
    ensures var (t', r) := Reserve(t, app, depot, gid, state, hint);
            && Inv(t') && |t.dirs| <= |t'.dirs| <= |t.dirs| + 2
            && t'.byPath.Keys == t.byPath.Keys + {AppPath(app), DepotPath(app, depot)}
            && (r == Err(AlreadyMounted) <==> Mounted(t.slots, app, depot, gid))
            && (r == Err(TooManySnapshots) <==>
                  !Mounted(t.slots, app, depot, gid) && |t.slots| == 65536)
            && (r.Err? ==> t'.slots == t.slots)
            && (r.Ok? ==>
                  && r.value == |t.slots| <= 65535
                  && t'.slots == t.slots + [Some(Slot(app, depot, gid, state, CreationTime(state, hint)))])
  {
    hide Levels, Linked, Indexed, Attached, Decimal, DepotPath, AppPath, WithChildren, PathOfDir, Mounted, EnsureDepot;
    EnsureDepotWorks(t, app, depot);
    var (t', d) := EnsureDepot(t, app, depot);
    ChildIffMounted(t', d, app, depot, gid);
    if Decimal(gid) !in t'.dirs[d].children && |t'.slots| <= MAX_SNAPSHOT {
      AttachKeepsInv(t', d, Slot(app, depot, gid, state, CreationTime(state, hint)));
    }
  }

  // ---- Unmounting and promoting ----

  function Remove(t: Tree, id: nat): (Tree, Option<Slot>)
    requires Inv(t)
  {
    if !Live(t.slots, id) then (t, None)
    else
      var slot := t.slots[id].value;
      var path := DepotPath(slot.app, slot.depot);
      assert ListedAs(t, slot, id);
      var d := t.byPath[path];
      var children := t.dirs[d].children - {Decimal(slot.gid)};
      (Tree(WithChildren(t.dirs, d, children), t.byPath, t.slots[id := None]), Some(slot))
  }

  lemma IndexedPath(t: Tree, path: string)
    requires Inv(t) && path in t.byPath
    ensures HasPath(t.dirs, t.byPath[path], path)
  {}

  lemma OthersElsewhere(t: Tree, id: nat, i: nat)
    requires Inv(t) && Live(t.slots, id) && Live(t.slots, i) && i != id
    ensures var a, b := t.slots[id].value, t.slots[i].value;
            t.byPath[DepotPath(a.app, a.depot)] != t.byPath[DepotPath(b.app, b.depot)] || Decimal(a.gid) != Decimal(b.gid)
  {
    hide Levels, Linked, Indexed, Decimal, DepotPath;
    assert ListedAs(t, t.slots[id].value, id);
    assert ListedAs(t, t.slots[i].value, i);
    PackUnpack(id, 0);
    PackUnpack(i, 0);
  }

  lemma DetachKeepsSlots(t: Tree, t': Tree, id: nat, d: nat)
    requires Inv(t) && Live(t.slots, id) && IsDepot(t.dirs, d) && ParentsBelow(t'.dirs)
    requires var slot := t.slots[id].value;
             && PathOfDir(t.dirs, d) == DepotPath(slot.app, slot.depot) && t.byPath[PathOfDir(t.dirs, d)] == d
             && t' == Tree(WithChildren(t.dirs, d, t.dirs[d].children - {Decimal(slot.gid)}), t.byPath,
                           t.slots[id := None])
    requires forall i | 1 <= i < |t.dirs| :: PathOfDir(t'.dirs, i) == PathOfDir(t.dirs, i)
    ensures Attached(t')
  {
    hide Levels, Linked, Indexed, Decimal, DepotPath, WithChildren, PathOfDir, Pack, Unpack;
    forall i: nat | Live(t'.slots, i) ensures ListedAs(t', t'.slots[i].value, i) {
      assert ListedAs(t, t.slots[i].value, i);
      OthersElsewhere(t, id, i);
    }
    forall e, k | 1 <= e < |t'.dirs| && IsDepot(t'.dirs, e) && k in t'.dirs[e].children
      ensures IsSnapshotRoot(t', e, k, t'.dirs[e].children[k])
    {
      assert IsDepot(t.dirs, e) && k in t.dirs[e].children;
      assert IsSnapshotRoot(t, e, k, t.dirs[e].children[k]);
      if Unpack(t.dirs[e].children[k]).0 == id {
        DepotIsIndexed(t, e);
      }
    }
  }

  /** Unmounting empties the slot and takes it off its depot directory, and does nothing else. */
  lemma RemoveWorks(t: Tree, id: nat)
    requires Inv(t)
    ensures var (t', r) := Remove(t, id);
            && Inv(t') && |t'.dirs| == |t.dirs| && t'.byPath == t.byPath
            && (Live(t.slots, id) ==> r == t.slots[id] && t'.slots == t.slots[id := None])
            && (!Live(t.slots, id) ==> r == None && t' == t)
  {
    hide Levels, Linked, Indexed, Decimal, DepotPath, WithChildren, PathOfDir, Pack, Unpack;
    if Live(t.slots, id) {
      var t', slot := Remove(t, id).0, t.slots[id].value;
      assert ListedAs(t, slot, id);
      var d := t.byPath[DepotPath(slot.app, slot.depot)];
      IndexedPath(t, DepotPath(slot.app, slot.depot));
      DepotChildrenAreApart(t.dirs, t.byPath, d, t'.dirs[d].children);
      LevelsHaveParents(t.dirs);
      LevelsHaveParents(t'.dirs);
      DetachKeepsSlots(t, t', id, d);
    }
  }

  /** A pending slot gets its snapshot; any other slot, or a removed one, is left alone. */
  function Promote(t: Tree, id: nat, entry: SnapshotEntry): Tree {
    if Live(t.slots, id) && t.slots[id].value.state.Pending? then
      var slot := t.slots[id].value.(state := Ready(entry), creationTime := Some(entry.manifest.creationTime));
      t.(slots := t.slots[id := Some(slot)])
    else t
  }

  lemma PromoteKeepsInv(t: Tree, id: nat, entry: SnapshotEntry)
    requires Inv(t)
    ensures Inv(Promote(t, id, entry))
  {
    hide Levels, Linked, Indexed, Decimal, DepotPath, PathOfDir, Pack, Unpack;
    var t' := Promote(t, id, entry);
    LevelsHaveParents(t.dirs);
    forall i: nat | Live(t'.slots, i) ensures ListedAs(t', t'.slots[i].value, i) {
      assert ListedAs(t, t.slots[i].value, i);
    }
    forall e, k | 1 <= e < |t'.dirs| && IsDepot(t'.dirs, e) && k in t'.dirs[e].children
      ensures IsSnapshotRoot(t', e, k, t'.dirs[e].children[k])
    {
      assert IsSnapshotRoot(t, e, k, t.dirs[e].children[k]);
    }
  }

  // ---- Finding ----

  function Find(t: Tree, app: nat, depot: nat, gid: nat): Option<nat>
    requires Inv(t)
  {
    var path := DepotPath(app, depot);
    if path !in t.byPath then None
    else
      assert HasPath(t.dirs, t.byPath[path], path);
      var children := t.dirs[t.byPath[path]].children;
      if Decimal(gid) in children then Some(Unpack(children[Decimal(gid)]).0) else None
  }

  /** A directory with a depot's path is a depot directory. */
  lemma TwoComponents(dirs: seq<SyntheticDir>, d: nat, app: nat, depot: nat)
    requires Levels(dirs) && 2 <= d < |dirs| && PathOfDir(dirs, d) == DepotPath(app, depot)
    ensures IsDepot(dirs, d)
  {
    hide Decimal;
    assert AppOrDepot(dirs, d);
    if IsApp(dirs, d) {
      assert PathOfDir(dirs, ROOT) == "";
      DecimalIsName(depot);
      PathSplits("/" + Decimal(app), Decimal(depot), "", dirs[d].name);
      assert false;
    }
  }

  /** Finding by path gives exactly the id of the live slot for that manifest. */
  lemma FindIff(t: Tree, app: nat, depot: nat, gid: nat)
    requires Inv(t)
    ensures Find(t, app, depot, gid).Some? <==> Mounted(t.slots, app, depot, gid)
    ensures forall id: nat :: Find(t, app, depot, gid) == Some(id) <==> MountedAs(t.slots, id, app, depot, gid)
  {
    hide Levels, Linked, Decimal, PathOfDir, Pack, Unpack, DepotPath;
    var path := DepotPath(app, depot);
    LevelsHaveParents(t.dirs);
    if path in t.byPath {
      var d := t.byPath[path];
      assert HasPath(t.dirs, d, path);
      TwoComponents(t.dirs, d, app, depot);
      ChildIffMounted(t, d, app, depot, gid);
      forall id: nat | MountedAs(t.slots, id, app, depot, gid)
        ensures Find(t, app, depot, gid) == Some(id)
      {
        PackUnpack(id, 0);
      }
    } else {
      forall id: nat | Live(t.slots, id) ensures !MountedAs(t.slots, id, app, depot, gid) {
        assert ListedAs(t, t.slots[id].value, id);
      }
    }
  }

  // ---- Walking from the root ----

  /** `r` is found below the root under the names `app`, `depot` and `gid`, one after the other. */
  predicate FoundUnder(t: Tree, app: string, depot: string, gid: string, r: nat) {
    && 1 < |t.dirs| && app in t.dirs[1].children
    && var a := t.dirs[1].children[app];
       && a < |t.dirs| && depot in t.dirs[a].children
       && var d := t.dirs[a].children[depot];
          d < |t.dirs| && gid in t.dirs[d].children && t.dirs[d].children[gid] == r
  }

  /** The names on the way to a depot directory are those of its path. */
  lemma DepotNames(t: Tree, d: nat, app: string, depot: string)
    requires Inv(t) && IsDepot(t.dirs, d) && SlashFree(app) && SlashFree(depot)
    ensures var a := t.dirs[d].parent.value;
            PathOfDir(t.dirs, d) == "/" + app + "/" + depot <==> t.dirs[a].name == app && t.dirs[d].name == depot
  {
    var a := t.dirs[d].parent.value;
    assert AppOrDepot(t.dirs, d) && AppOrDepot(t.dirs, a);
    assert PathOfDir(t.dirs, ROOT) == "";
    assert PathOfDir(t.dirs, a) == "" + "/" + t.dirs[a].name;
    assert PathOfDir(t.dirs, d) == PathOfDir(t.dirs, a) + "/" + t.dirs[d].name;
    if PathOfDir(t.dirs, d) == "/" + app + "/" + depot {
      PathSplits("/" + app, depot, PathOfDir(t.dirs, a), t.dirs[d].name);
      PathSplits("", app, "", t.dirs[a].name);
    }
  }

  /** A mounted snapshot is found below the root under its app, its depot and its manifest id. */
  lemma MountedIsFound(t: Tree, id: nat)
    requires Inv(t) && Live(t.slots, id)
    ensures var slot := t.slots[id].value;
            FoundUnder(t, Decimal(slot.app), Decimal(slot.depot), Decimal(slot.gid), id * 281_474_976_710_656)
  {
    hide Decimal, PathOfDir, Indexed;
    var slot := t.slots[id].value;
    assert ListedAs(t, slot, id);
    var d := t.byPath[DepotPath(slot.app, slot.depot)];
    IndexedPath(t, DepotPath(slot.app, slot.depot));
    DecimalIsName(slot.app);
    DecimalIsName(slot.depot);
    DepotNames(t, d, Decimal(slot.app), Decimal(slot.depot));
    assert NamedInParent(t.dirs, d) && NamedInParent(t.dirs, t.dirs[d].parent.value);
  }

  /** And nothing else is found three levels down: only the roots of mounted snapshots, each under its
      own names. */
  lemma FoundIsMounted(t: Tree, app: string, depot: string, gid: string, r: nat)
    requires Inv(t) && FoundUnder(t, app, depot, gid, r)
    ensures var id := r / 281_474_976_710_656;
            && Live(t.slots, id) && r == id * 281_474_976_710_656
            && var slot := t.slots[id].value;
               app == Decimal(slot.app) && depot == Decimal(slot.depot) && gid == Decimal(slot.gid)
  {
    hide Decimal, PathOfDir, Indexed, AppOrDepot;
    LevelsHaveParents(t.dirs);
    var a := t.dirs[1].children[app];
    assert IsSubdirectory(t.dirs, 1, app, a);
    var d := t.dirs[a].children[depot];
    assert IsContainer(t.dirs, a) && IsSubdirectory(t.dirs, a, depot, d);
    assert IsSnapshotRoot(t, d, gid, r);
    var slot := t.slots[Unpack(r).0].value;
    DecimalIsName(slot.app);
    DecimalIsName(slot.depot);
    DepotNames(t, d, Decimal(slot.app), Decimal(slot.depot));
  }

  // ---- Any sequence of changes ----

  datatype Op =
    | Add(app: nat, depot: nat, gid: nat, entry: SnapshotEntry)
    | AddLazy(app: nat, depot: nat, gid: nat, cell: nat, hint: Option<nat>)
    | Unmount(id: nat)
    | Promotion(id: nat, entry: SnapshotEntry)

  function Apply(t: Tree, op: Op): Tree
    requires Inv(t)
  {
    match op
    case Add(app, depot, gid, entry) => Reserve(t, app, depot, gid, Ready(entry), None).0
    case AddLazy(app, depot, gid, cell, hint) => Reserve(t, app, depot, gid, Pending(cell), hint).0
    case Unmount(id) => Remove(t, id).0
    case Promotion(id, entry) => Promote(t, id, entry)
  }

  /** The slot is as it was, or has been given its snapshot, and the time of its manifest. */
  predicate SameSlot(was: Option<Slot>, slot: Slot) {
    && was.Some?
    && (slot == was.value
        || (was.value.state.Pending? && slot.state.Ready?
            && slot == Slot(was.value.app, was.value.depot, was.value.gid, slot.state,
                            Some(slot.state.entry.manifest.creationTime))))
  }

  /** What a slot table can become: an empty slot stays empty, a slot stays as it is until it is
      loaded or emptied, and ids are handed out in order, up to 65535. */
  ghost predicate Later(slots: seq<Option<Slot>>, slots': seq<Option<Slot>>) {
    && |slots| <= |slots'| <= 65536
    && forall id: nat | id < |slots| && Live(slots', id) :: SameSlot(slots[id], slots'[id].value)
  }

  lemma ApplyWorks(t: Tree, op: Op)
    requires Inv(t)
    ensures Inv(Apply(t, op)) && Later(t.slots, Apply(t, op).slots)
    ensures |Apply(t, op).dirs| <= |t.dirs| + 2
    ensures t.byPath.Keys <= Apply(t, op).byPath.Keys
  {
    hide Levels, Linked, Indexed, Attached, Reserve, Remove, Mounted;
    match op
    case Add(app, depot, gid, entry) => ReserveWorks(t, app, depot, gid, Ready(entry), None);
    case AddLazy(app, depot, gid, cell, hint) => ReserveWorks(t, app, depot, gid, Pending(cell), hint);
    case Unmount(id) => RemoveWorks(t, id);
    case Promotion(id, entry) => PromoteKeepsInv(t, id, entry);
  }

  function Run(t: Tree, ops: seq<Op>): Tree
    requires Inv(t)
    decreases |ops|
  {
    if ops == [] then t else
      ApplyWorks(t, ops[0]);
      Run(Apply(t, ops[0]), ops[1..])
  }

  /** Whatever is mounted, promoted and unmounted: the tree, the path index and the slots keep
      agreeing, and no id is used twice. */
  lemma {:induction false} RunKeepsInv(t: Tree, ops: seq<Op>)
    requires Inv(t)
    ensures Inv(Run(t, ops)) && Later(t.slots, Run(t, ops).slots)
    ensures t.byPath.Keys <= Run(t, ops).byPath.Keys
    decreases |ops|
  {
    hide Levels, Linked, Indexed, Attached, Apply;
    if ops != [] {
      ApplyWorks(t, ops[0]);
      RunKeepsInv(Apply(t, ops[0]), ops[1..]);
    }
  }

  /** An id that has been taken away never comes back. */
  lemma RemovedStaysRemoved(t: Tree, ops: seq<Op>, id: nat)
    requires Inv(t) && id < |t.slots| && !Live(t.slots, id)
    ensures !Live(Run(t, ops).slots, id)
  {
    RunKeepsInv(t, ops);
  }
}
