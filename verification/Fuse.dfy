/** Directory listing and reading of the FUSE back end. */
module Fuse {
  import opened Prelude
  import opened Inode
  import opened Manifests
  import opened ManifestFs
  import opened SnapshotView
  import opened MountTrees
  import opened Listings

  datatype FileType = DirectoryType | RegularType

  /** One directory entry of a reply, with the offset at which the next one is found. */
  datatype Item = Item(ino: nat, nextOffset: nat, kind: FileType, name: string)

  function FileTypeOf(node: Node): FileType {
    if node.kind.Dir? then DirectoryType else RegularType
  }

  /** The reply buffer: whether one more entry fits is up to the sizes involved. */
  class ReplyDirectory {
    var items: seq<Item>
    const room: (seq<Item>, Item) -> bool

    constructor (room: (seq<Item>, Item) -> bool)
      ensures this.room == room && items == []
    {
      this.room := room;
      items := [];
    }

    /** Whether the buffer is full; if so the entry was not added. */
    method Add(item: Item) returns (full: bool)
      modifies this`items
      ensures full <==> !room(old(items), item)
      ensures items == if full then old(items) else old(items) + [item]
    {
      full := !room(items, item);
      if !full {
        items := items + [item];
      }
    }
  }

  /** The directory itself, its parent and its entries, as items. */
  function ItemAt(ino: nat, entries: seq<(string, Node)>, i: nat): Item
    requires i < |entries| + 2
  {
    if i == 0 then Item(ino, 1, DirectoryType, ".")
    else if i == 1 then Item(ino, 2, DirectoryType, "..")
    else Item(entries[i - 2].1.ino, i + 1, FileTypeOf(entries[i - 2].1), entries[i - 2].0)
  }

  function Items(ino: nat, entries: seq<(string, Node)>): (r: seq<Item>)
    ensures |r| == |entries| + 2
    ensures forall i | 0 <= i < |r| :: r[i] == ItemAt(ino, entries, i) && r[i].nextOffset == i + 1
  {
    seq(|entries| + 2, i requires 0 <= i < |entries| + 2 => ItemAt(ino, entries, i))
  }

  /** The items of a directory: itself and its parent, both under its own id, and every entry under its
      id and name; directories as such, everything else, links too, as a regular file. */
  lemma ItemsAre(ino: nat, entries: seq<(string, Node)>)
    ensures var items := Items(ino, entries);
            && |items| == |entries| + 2
            && items[0] == Item(ino, 1, DirectoryType, ".") && items[1] == Item(ino, 2, DirectoryType, "..")
            && forall i | 0 <= i < |entries| ::
                 && items[i + 2].ino == entries[i].1.ino && items[i + 2].name == entries[i].0
                 && items[i + 2].nextOffset == i + 3
                 && (items[i + 2].kind == DirectoryType <==> entries[i].1.kind == Dir)
  {}

  /** Each item fitted when it was added. */
  ghost predicate Fits(room: (seq<Item>, Item) -> bool, page: seq<Item>) {
    forall k | 0 <= k < |page| :: room(page[..k], page[k])
  }

  /** What a reply to `offset` has: the items from there on, as many as fit and no fewer. */
  ghost predicate IsPage(items: seq<Item>, offset: nat, room: (seq<Item>, Item) -> bool, page: seq<Item>) {
    if offset >= |items| then page == []
    else
      && offset + |page| <= |items| && page == items[offset..offset + |page|] && Fits(room, page)
      && (offset + |page| < |items| ==> !room(page, items[offset + |page|]))
  }

  lemma OneMore(items: seq<Item>, offset: nat, i: nat, room: (seq<Item>, Item) -> bool, page: seq<Item>)
    requires offset <= i < |items| && page == items[offset..i] && Fits(room, page) && room(page, items[i])
    ensures page + [items[i]] == items[offset..i + 1] && Fits(room, page + [items[i]])
  {
    var more := page + [items[i]];
    forall k | 0 <= k < |more| ensures room(more[..k], more[k]) {
      assert more[..k] == page[..k];
    }
    assert page[..|page|] == page;
  }

  /** The directory, its parent and its entries, before they get their offsets. */
  method AllEntries(ino: nat, entries: seq<(string, Node)>) returns (all: seq<(nat, FileType, string)>)
    ensures |all| == |Items(ino, entries)|
    ensures forall i | 0 <= i < |all| :: Items(ino, entries)[i] == Item(all[i].0, i + 1, all[i].1, all[i].2)
  {
    all := [(ino, DirectoryType, "."), (ino, DirectoryType, "..")];
    for i := 0 to |entries|
      invariant |all| == i + 2
      invariant forall k | 0 <= k < |all| :: ItemAt(ino, entries, k) == Item(all[k].0, k + 1, all[k].1, all[k].2)
    {
      all := all + [(entries[i].1.ino, FileTypeOf(entries[i].1), entries[i].0)];
    }
  }

  lemma EmptyFits(room: (seq<Item>, Item) -> bool)
    ensures Fits(room, [])
  {}

  method EmitReaddir(ino: nat, entries: seq<(string, Node)>, offset: nat, reply: ReplyDirectory)
    requires reply.items == []
    modifies reply
    ensures IsPage(Items(ino, entries), offset, reply.room, reply.items)
  {
    hide Fits, Items, ItemAt;
    var all := AllEntries(ino, entries);
    ghost var items := Items(ino, entries);
    EmptyFits(reply.room);
    for i := 0 to |all|
      invariant reply.items == if offset < i then items[offset..i] else []
      invariant Fits(reply.room, reply.items)
    {
      var nextOffset := i + 1;
      if nextOffset <= offset {
        continue;
      }
      ghost var before := reply.items;
      assert before == items[offset..i];
      var full := reply.Add(Item(all[i].0, nextOffset, all[i].1, all[i].2));
      if full {
        return;
      }
      OneMore(items, offset, i, reply.room, before);
    }
  }

  /** A reply as the kernel sees it: the offset it asked for, the buffer, and what came back. */
  datatype Reply = Reply(offset: nat, room: (seq<Item>, Item) -> bool, page: seq<Item>)

  /** Where the kernel goes on: at the last item's next offset. */
  function NextOffset(reply: Reply): nat {
    if reply.page == [] then reply.offset else reply.page[|reply.page| - 1].nextOffset
  }

  function OffsetAfter(replies: seq<Reply>): nat {
    if replies == [] then 0 else NextOffset(replies[|replies| - 1])
  }

  /** Every reply is to the offset the ones before it led to, into a buffer with room for any one
      entry. */
  ghost predicate Follows(items: seq<Item>, replies: seq<Reply>) {
    replies != [] ==>
      var before, last := replies[..|replies| - 1], replies[|replies| - 1];
      && Follows(items, before)
      && last.offset == OffsetAfter(before)
      && IsPage(items, last.offset, last.room, last.page)
      && forall item :: last.room([], item)
  }

  function Got(replies: seq<Reply>): seq<Item> {
    if replies == [] then [] else Got(replies[..|replies| - 1]) + replies[|replies| - 1].page
  }

  lemma PageMovesOn(items: seq<Item>, reply: Reply)
    requires IsPage(items, reply.offset, reply.room, reply.page) && forall item :: reply.room([], item)
    requires forall i | 0 <= i < |items| :: items[i].nextOffset == i + 1
    requires reply.offset <= |items|
    ensures NextOffset(reply) == reply.offset + |reply.page| <= |items|
    ensures items[..reply.offset] + reply.page == items[..NextOffset(reply)]
    ensures reply.offset < |items| ==> reply.page != []
  {
    hide Fits;
    if reply.offset < |items| {
      assert reply.page != [];
      assert reply.page[|reply.page| - 1] == items[reply.offset + |reply.page| - 1];
    }
  }

  /** Following the offsets delivers the listing from its beginning, each entry once and in order,
      and a reply is empty only when all of it has been delivered. */
  lemma {:induction false} FollowingOffsets(items: seq<Item>, replies: seq<Reply>)
    requires forall i | 0 <= i < |items| :: items[i].nextOffset == i + 1
    requires Follows(items, replies)
    ensures OffsetAfter(replies) == |Got(replies)| <= |items|
    ensures Got(replies) == items[..|Got(replies)|]
    ensures |Got(replies)| >= Min(|replies|, |items|)
    ensures |replies| >= |items| ==> Got(replies) == items
  {
    hide IsPage;
    assert items[..|items|] == items;
    if replies != [] {
      FollowingOffsets(items, replies[..|replies| - 1]);
      PageMovesOn(items, replies[|replies| - 1]);
    }
  }

  datatype Errno = EISDIR | ENOENT | EIO

  /** Why there is no snapshot to work on. */
  function NoSnapshot(snapshot: Resolved): Errno {
    if snapshot.OpenFailed? then EIO else ENOENT
  }

  /** A directory of a snapshot that cannot be listed is an empty one. */
  method Readdir(tree: MountTree, snapshot: Resolved, ino: nat, offset: nat, reply: ReplyDirectory)
    returns (error: Option<Errno>, ghost entries: seq<(string, Node)>)
    requires ResolvedOk(snapshot) && InOrder(tree, snapshot) && ino < U64 && reply.items == []
    modifies reply
    ensures error == (if Unpack(ino).0 == SYNTHETIC then if tree.Synthetic(ino).Some? then None else Some(ENOENT)
                      else if snapshot.Loaded? then None else if snapshot.OpenFailed? then Some(EIO) else Some(ENOENT))
    ensures error == None ==>
              IsListing(tree, snapshot, ino, entries) && IsPage(Items(ino, entries), offset, reply.room, reply.items)
    ensures error.Some? ==> reply.items == []
  {
    hide IsListing, IsPage, Items, Unpack, WellFormed;
    entries := [];
    if Unpack(ino).0 != SYNTHETIC && !snapshot.Loaded? {
      return Some(NoSnapshot(snapshot)), entries;
    }
    var listed := ListDirectory(tree, snapshot, ino);
    if Unpack(ino).0 == SYNTHETIC && listed == None {
      return Some(ENOENT), entries;
    }
    var listing := if listed.Some? then listed.value else [];
    entries := listing;
    EmitReaddir(ino, listing, offset, reply);
    error := None;
  }

  lemma {:induction false} PagesFollow(items: seq<Item>, replies: seq<Reply>)
    requires forall k | 0 <= k < |replies| ::
               && replies[k].offset == OffsetAfter(replies[..k])
               && IsPage(items, replies[k].offset, replies[k].room, replies[k].page)
               && forall item :: replies[k].room([], item)
    ensures Follows(items, replies)
  {
    hide IsPage, OffsetAfter;
    if replies != [] {
      var before := replies[..|replies| - 1];
      assert forall k | 0 <= k < |before| :: before[..k] == replies[..k];
      PagesFollow(items, before);
    }
  }

  /** Replies as `Readdir` gives them, each from a listing of its own: together they deliver the
      directory's items from their beginning, each once and in order, and all of them after
      enough replies. */
  lemma {:induction false} RepliesDeliver(tree: MountTree, snapshot: Resolved, ino: nat, entries: seq<(string, Node)>,
                                          listings: seq<seq<(string, Node)>>, replies: seq<Reply>)
    requires ino < U64 && ResolvedOk(snapshot) && IsListing(tree, snapshot, ino, entries)
    requires |listings| == |replies| && forall k | 0 <= k < |listings| :: IsListing(tree, snapshot, ino, listings[k])
    requires forall k | 0 <= k < |replies| ::
               && replies[k].offset == OffsetAfter(replies[..k])
               && IsPage(Items(ino, listings[k]), replies[k].offset, replies[k].room, replies[k].page)
               && forall item :: replies[k].room([], item)
    ensures var items := Items(ino, entries);
            && |Got(replies)| <= |items| && Got(replies) == items[..|Got(replies)|]
            && |Got(replies)| >= Min(|replies|, |items|)
            && (|replies| >= |items| ==> Got(replies) == items)
  {
    hide IsListing, IsPage, Got, Items, ItemAt;
    var items := Items(ino, entries);
    forall k | 0 <= k < |replies| ensures IsPage(items, replies[k].offset, replies[k].room, replies[k].page) {
      ListingIsUnique(tree, snapshot, ino, listings[k], entries);
    }
    PagesFollow(items, replies);
    FollowingOffsets(items, replies);
  }

  /** Unlike the NFS back end this one does not cut a read off at the end: one that starts past
      it is an I/O error. */
  method Read(snapshot: Resolved, ino: nat, offset: nat, size: nat, get: Sha -> Option<Bytes>, ghost plain: Sha -> Bytes)
    returns (r: Result<Bytes, Errno>)
    requires ResolvedOk(snapshot) && offset + size < U64
    requires snapshot.Loaded? ==> WellFormed(snapshot.store.manifest)
    ensures var (sid, idx) := Unpack(ino);
            && (r == Err(EISDIR) <==> sid == SYNTHETIC || idx == 0)
            && (sid != SYNTHETIC && idx != 0 && snapshot.OpenFailed? ==> r == Err(EIO))
            && (sid != SYNTHETIC && idx != 0 && snapshot.NotMounted? ==> r == Err(ENOENT))
            && (sid != SYNTHETIC && idx != 0 && snapshot.Loaded? ==>
                  var files := snapshot.store.manifest.files;
                  && (r == Err(ENOENT) <==> idx > |files|)
                  && (idx <= |files| ==>
                        var f := files[idx - 1];
                        && (offset > f.size || !f.kind.File? ==> r == Err(EIO))
                        && (offset <= f.size && f.kind.File? && Intact(snapshot.store.manifest, idx - 1, get, plain) ==>
                              && (r.Err? ==> r.error == EIO && exists sha :: Lacking(f.kind.chunks, get, plain, sha))
                              && (r.Ok? ==>
                                    && |Content(f.kind.chunks, plain)| == f.size
                                    && r.value == Content(f.kind.chunks, plain)[offset..Min(offset + size, f.size)]))))
  {
    hide Content, Intact, WellFormed, Lacking, Unpack;
    var (sid, idx) := Unpack(ino);
    if sid == SYNTHETIC || idx == 0 {
      return Err(EISDIR);
    }
    if !snapshot.Loaded? {
      return Err(NoSnapshot(snapshot));
    }
    var store := snapshot.store;
    if idx - 1 >= |store.manifest.files| {
      return Err(ENOENT);
    }
    var buf := ReadFile(store, idx - 1, offset, size, get, plain);
    if buf == None {
      return Err(EIO);
    }
    r := Ok(buf.value);
  }
}
