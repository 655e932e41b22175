/** One directory listing for all back ends: of the synthetic prefix, or inside a snapshot. */
module Listings {
  import opened Prelude
  import opened Inode
  import opened MountDirs
  import opened MountTrees
  import opened SnapshotView
  import opened Manifests
  import opened Paths

  /** `entries` is the listing of `ino`, given what an access to its snapshot ended in. */
  ghost predicate IsListing(tree: MountTree, snapshot: Resolved, ino: nat, entries: seq<(string, Node)>)
    requires ino < U64 && ResolvedOk(snapshot)
    reads tree, if snapshot.Loaded? then {snapshot.store} else {}
  {
    if Unpack(ino).0 == SYNTHETIC then tree.ListsSynthetic(ino, entries)
    else snapshot.Loaded? && Lists(snapshot.store.manifest, ino, entries)
  }

  /** The prefix is in order, and so is the snapshot's manifest. */
  ghost predicate InOrder(tree: MountTree, snapshot: Resolved)
    reads tree, if snapshot.Loaded? then {snapshot.store} else {}
  {
    tree.Valid() && (snapshot.Loaded? ==> WellFormed(snapshot.store.manifest))
  }

  /** However often an unchanged directory is listed, the listing is the same. */
  lemma {:induction false} ListingIsUnique(tree: MountTree, snapshot: Resolved, ino: nat,
                                           a: seq<(string, Node)>, b: seq<(string, Node)>)
    requires ino < U64 && ResolvedOk(snapshot)
    requires IsListing(tree, snapshot, ino, a) && IsListing(tree, snapshot, ino, b)
    ensures a == b
  {
    if Unpack(ino).0 == SYNTHETIC {
      SyntheticListingIsUnique(tree, ino, a, b);
    } else {
      SnapshotListingIsUnique(snapshot.store.manifest, ino, a, b);
    }
  }

  /** Listings are in the order of the names: a name that is the beginning of another, or has the lower
      character code where they first differ, comes first. */
  lemma {:induction false} ListingIsInOrder(tree: MountTree, snapshot: Resolved, ino: nat,
                                            entries: seq<(string, Node)>, i: nat, j: nat)
    requires ino < U64 && ResolvedOk(snapshot) && IsListing(tree, snapshot, ino, entries)
    requires i < j < |entries|
    ensures entries[i].0 != entries[j].0 && ComesBefore(entries[i].0, entries[j].0)
  {
    hide NameLe, ComesBefore, SnapshotChild;
    NameLeIff(entries[i].0, entries[j].0);
  }

  lemma SnapshotIdsDiffer(m: Manifest, ino: nat, entries: seq<(string, Node)>)
    requires WellFormed(m) && ino < U64 && Lists(m, ino, entries)
    ensures DistinctIds(entries)
  {
    hide UniquePaths, NormalisedPaths, SnapshotNode, Lookup, Join, StripLeadingSlash;
    UnpackPack(ino);
    if entries != [] {
      assert SnapshotChild(m, ino, entries[0].0).Some?;
      ListedInosDiffer(m, Unpack(ino).0, Unpack(ino).1, entries);
    }
  }

  /** The ids in a listing tell its entries apart. */
  lemma {:induction false} ListingHasDistinctIds(tree: MountTree, snapshot: Resolved, ino: nat,
                                                 entries: seq<(string, Node)>)
    requires ino < U64 && ResolvedOk(snapshot) && InOrder(tree, snapshot)
    requires IsListing(tree, snapshot, ino, entries)
    ensures DistinctIds(entries)
  {
    hide Inv, WellFormed, Lists;
    if Unpack(ino).0 == SYNTHETIC {
      SyntheticIdsDiffer(tree, ino, entries);
    } else {
      SnapshotIdsDiffer(snapshot.store.manifest, ino, entries);
    }
  }

  /** Listing `ino`; below a snapshot, none if there is no entry. */
  method ListDirectory(tree: MountTree, snapshot: Resolved, ino: nat) returns (r: Option<seq<(string, Node)>>)
    requires ino < U64 && ResolvedOk(snapshot)
    ensures Unpack(ino).0 == SYNTHETIC ==>
              && (r.Some? <==> tree.Synthetic(ino).Some?)
              && (r.Some? ==> IsListing(tree, snapshot, ino, r.value))
    ensures Unpack(ino).0 != SYNTHETIC && !snapshot.Loaded? ==> r == None
    ensures Unpack(ino).0 != SYNTHETIC && snapshot.Loaded? && WellFormed(snapshot.store.manifest) ==>
              && (r.Some? ==> r.value != [])
              && IsListing(tree, snapshot, ino, if r.Some? then r.value else [])
  {
    hide Lists, WellFormed, Unpack;
    if Unpack(ino).0 == SYNTHETIC {
      r := tree.ListSynthetic(ino);
    } else if snapshot.Loaded? {
      r := SnapshotDir(snapshot.store, ino);
    } else {
      r := None;
    }
  }
}
