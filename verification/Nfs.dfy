/** READDIR and READ of the NFS back end (RFC 1813, sections 3.3.16 and 3.3.6). */
module Nfs {
  import opened Prelude
  import opened Inode
  import opened Manifests
  import opened ManifestFs
  import opened SnapshotView
  import opened MountTrees
  import opened Listings

  datatype Status = NoEntry | IsDirectory | InputOutput

  /** Why there is no snapshot to work on. */
  function NoSnapshot(snapshot: Resolved): Status {
    if snapshot.OpenFailed? then InputOutput else NoEntry
  }

  // ---- READDIR ----

  function Position(entries: seq<(string, Node)>, cookie: nat): (r: Option<nat>)
    ensures r.Some? ==> r.value < |entries| && entries[r.value].1.ino == cookie
    ensures r.None? ==> forall i | 0 <= i < |entries| :: entries[i].1.ino != cookie
  {
    if entries == [] then None
    else if entries[0].1.ino == cookie then Some(0)
    else
      match Position(entries[1..], cookie)
      case None => None
      case Some(i) => Some(i + 1)
  }

  /** One page: at most `maxEntries` entries after the one whose id is the cookie, and whether
      that reaches the end. */
  function Readdir(entries: seq<(string, Node)>, startAfter: nat, maxEntries: nat): (seq<(string, Node)>, bool) {
    var skip :=
      if startAfter == 0 then 0
      else
        match Position(entries, startAfter)
        case None => 0
        case Some(i) => i + 1;
    var page := entries[skip..][..Min(maxEntries, |entries| - skip)];
    (page, skip + |page| >= |entries|)
  }

  /** The cookie of a client that has the first `n` entries. */
  function CookieAfter(entries: seq<(string, Node)>, n: nat): nat
    requires n <= |entries|
  {
    if n == 0 then 0 else entries[n - 1].1.ino
  }

  /** A call asks for `maxEntries` entries, makes its own listing of the directory, and gets to
      keep the first `kept` entries of the page, as many as fit its reply. */
  datatype Call = Call(listing: seq<(string, Node)>, maxEntries: nat, kept: nat)

  /** What a client has after some calls, and its cookie. */
  function Follow(calls: seq<Call>): (seq<(string, Node)>, nat) {
    if calls == [] then ([], 0)
    else
      var (got, cookie) := Follow(calls[..|calls| - 1]);
      var call := calls[|calls| - 1];
      var page := Readdir(call.listing, cookie, call.maxEntries).0;
      var kept := page[..Min(call.kept, |page|)];
      (got + kept, if kept == [] then cookie else kept[|kept| - 1].1.ino)
  }

  /** A page asked for with the cookie after `n` entries starts at entry `n`; it is the last one
      exactly when the flag says so. */
  lemma PageAt(entries: seq<(string, Node)>, n: nat, maxEntries: nat)
    requires DistinctIds(entries) && n <= |entries|
    ensures var (page, end) := Readdir(entries, CookieAfter(entries, n), maxEntries);
            && page == entries[n..Min(n + maxEntries, |entries|)]
            && (end <==> n + |page| == |entries|)
  {
    if n > 0 {
      var i := Position(entries, entries[n - 1].1.ino);
      assert i == Some(n - 1);
    }
    var len := Min(maxEntries, |entries| - n);
    assert entries[n..][..len] == entries[n..n + len];
  }

  /** One call of a client that has the first `n` entries. */
  lemma FollowStep(entries: seq<(string, Node)>, n: nat, call: Call)
    requires DistinctIds(entries) && n <= |entries|
    requires call.listing == entries && call.maxEntries >= 1 && call.kept >= 1
    ensures var page := Readdir(entries, CookieAfter(entries, n), call.maxEntries).0;
            var kept := page[..Min(call.kept, |page|)];
            && n + |kept| <= |entries| && (n < |entries| ==> kept != [])
            && entries[..n] + kept == entries[..n + |kept|]
            && (kept != [] ==> kept[|kept| - 1].1.ino == CookieAfter(entries, n + |kept|))
  {
    hide Readdir, DistinctIds;
    PageAt(entries, n, call.maxEntries);
  }

  lemma FirstCookie(entries: seq<(string, Node)>)
    ensures CookieAfter(entries, 0) == 0
  {}

  /** Following the cookies delivers the listing from its beginning, each entry once and in order;
      every call that makes room for an entry gets on by one at least, so enough calls deliver
      all of it. */
  lemma {:induction false} FollowingCookies(entries: seq<(string, Node)>, calls: seq<Call>)
    requires DistinctIds(entries)
    requires forall k | 0 <= k < |calls| ::
               calls[k].listing == entries && calls[k].maxEntries >= 1 && calls[k].kept >= 1
    ensures var (got, cookie) := Follow(calls);
            && |got| <= |entries| && got == entries[..|got|]
            && cookie == CookieAfter(entries, |got|)
            && |got| >= Min(|calls|, |entries|)
    ensures |calls| >= |entries| ==> Follow(calls).0 == entries
  {
    hide Readdir, DistinctIds, CookieAfter;
    assert entries[..|entries|] == entries;
    if calls == [] {
      assert CookieAfter(entries, 0) == 0 by {
        FirstCookie(entries);
      }
    } else {
      var before := calls[..|calls| - 1];
      FollowingCookies(entries, before);
      FollowStep(entries, |Follow(before).0|, calls[|calls| - 1]);
    }
  }

  /** The next page says it is the last exactly if it completes the listing. */
  ghost predicate EndIsTrue(entries: seq<(string, Node)>, got: seq<(string, Node)>, cookie: nat, maxEntries: nat) {
    var (page, end) := Readdir(entries, cookie, maxEntries);
    end <==> got + page == entries
  }

  /** A client that keeps whole pages until one says it is the last has the whole listing, and
      had less before. */
  lemma EndMeansAll(entries: seq<(string, Node)>, calls: seq<Call>, maxEntries: nat)
    requires DistinctIds(entries)
    requires forall k | 0 <= k < |calls| ::
               calls[k].listing == entries && calls[k].maxEntries >= 1 && calls[k].kept >= 1
    ensures EndIsTrue(entries, Follow(calls).0, Follow(calls).1, maxEntries)
  {
    hide Readdir, Follow, DistinctIds;
    FollowingCookies(entries, calls);
    var (got, cookie) := Follow(calls);
    PageAt(entries, |got|, maxEntries);
    var page := Readdir(entries, cookie, maxEntries).0;
    assert got + page == entries[..|got| + |page|];
    assert entries[..|entries|] == entries;
  }

  /** A cookie that names no entry, of a directory that has changed say, starts over. */
  lemma UnknownCookieRestarts(entries: seq<(string, Node)>, cookie: nat, maxEntries: nat)
    requires forall k | 0 <= k < |entries| :: entries[k].1.ino != cookie
    ensures Readdir(entries, cookie, maxEntries) == Readdir(entries, 0, maxEntries)
  {
    assert Position(entries, cookie).None?;
  }

  /** A page of the directory's listing; why there is none. */
  method ReaddirInner(tree: MountTree, snapshot: Resolved, dirid: nat, startAfter: nat, maxEntries: nat)
    returns (r: Result<(seq<(string, Node)>, bool), Status>, ghost entries: seq<(string, Node)>)
    requires ResolvedOk(snapshot) && InOrder(tree, snapshot) && dirid < U64
    ensures r.Ok? ==> r.value == Readdir(entries, startAfter, maxEntries) && IsListing(tree, snapshot, dirid, entries)
    ensures r.Err? ==>
              if Unpack(dirid).0 == SYNTHETIC then r.error == NoEntry && tree.Synthetic(dirid) == None
              else if snapshot.OpenFailed? then r.error == InputOutput
              else if snapshot.NotMounted? then r.error == NoEntry
              else r.error == NoEntry && IsListing(tree, snapshot, dirid, [])
    ensures Unpack(dirid).0 != SYNTHETIC && !snapshot.Loaded? ==> r.Err?
    ensures Unpack(dirid).0 != SYNTHETIC && r.Ok? ==> entries != []
  {
    hide Readdir, IsListing, WellFormed, Unpack;
    entries := [];
    if Unpack(dirid).0 != SYNTHETIC && !snapshot.Loaded? {
      return Err(NoSnapshot(snapshot)), entries;
    }
    var listed := ListDirectory(tree, snapshot, dirid);
    if listed == None {
      return Err(NoEntry), entries;
    }
    entries := listed.value;
    r := Ok(Readdir(listed.value, startAfter, maxEntries));
  }

  /** Calls as `ReaddirInner` answers them, each from a listing of its own: following the cookies
      delivers the directory's listing from its beginning, each entry once and in order, and all
      of it after enough calls; a page says it is the last exactly if nothing is left after it. */
  lemma {:induction false} CallsDeliver(tree: MountTree, snapshot: Resolved, dirid: nat,
                                        entries: seq<(string, Node)>, calls: seq<Call>)
    requires dirid < U64 && ResolvedOk(snapshot) && InOrder(tree, snapshot)
    requires IsListing(tree, snapshot, dirid, entries)
    requires forall k | 0 <= k < |calls| ::
               && IsListing(tree, snapshot, dirid, calls[k].listing)
               && calls[k].maxEntries >= 1 && calls[k].kept >= 1
    ensures var (got, cookie) := Follow(calls);
            && |got| <= |entries| && got == entries[..|got|] && |got| >= Min(|calls|, |entries|)
            && (|calls| >= |entries| ==> got == entries)
            && forall maxEntries: nat :: EndIsTrue(entries, got, cookie, maxEntries)
  {
    hide IsListing, InOrder, Follow, Readdir, DistinctIds, EndIsTrue;
    ListingHasDistinctIds(tree, snapshot, dirid, entries);
    forall k | 0 <= k < |calls| ensures calls[k].listing == entries {
      ListingIsUnique(tree, snapshot, dirid, calls[k].listing, entries);
    }
    FollowingCookies(entries, calls);
    forall maxEntries: nat ensures EndIsTrue(entries, Follow(calls).0, Follow(calls).1, maxEntries) {
      EndMeansAll(entries, calls, maxEntries);
    }
  }

  // ---- READ ----

  /** A read past the end is empty and at the end; any other returns the bytes there are of the
      range, and says whether they reach the end of the file. */
  method ReadInner(snapshot: Resolved, id: nat, offset: nat, count: nat, get: Sha -> Option<Bytes>,
                   ghost plain: Sha -> Bytes)
    returns (r: Result<(Bytes, bool), Status>)
    requires ResolvedOk(snapshot) && offset < U64 && count < U32
    requires snapshot.Loaded? ==>
               && WellFormed(snapshot.store.manifest)
               && forall i | 0 <= i < |snapshot.store.manifest.files| :: snapshot.store.manifest.files[i].size < U64
    ensures var (sid, idx) := Unpack(id);
            && (r == Err(IsDirectory) <==> sid == SYNTHETIC || idx == 0)
            && (sid != SYNTHETIC && idx != 0 && snapshot.OpenFailed? ==> r == Err(InputOutput))
            && (sid != SYNTHETIC && idx != 0 && snapshot.NotMounted? ==> r == Err(NoEntry))
            && (sid != SYNTHETIC && idx != 0 && snapshot.Loaded? ==>
                  var files := snapshot.store.manifest.files;
                  && (r == Err(NoEntry) <==> idx > |files|)
                  && (idx <= |files| ==>
                        var f := files[idx - 1];
                        && (offset >= f.size ==> r == Ok(([], true)))
                        && (offset < f.size && !f.kind.File? ==> r == Err(InputOutput))
                        && (offset < f.size && f.kind.File? && Intact(snapshot.store.manifest, idx - 1, get, plain) ==>
                              && (r.Err? ==> r.error == InputOutput && exists sha :: Lacking(f.kind.chunks, get, plain, sha))
                              && (r.Ok? ==>
                                    var end := Min(offset + count, f.size);
                                    && |Content(f.kind.chunks, plain)| == f.size
                                    && r.value == (Content(f.kind.chunks, plain)[offset..end], end == f.size)))))
  {
    hide Content, Intact, WellFormed, Lacking, Unpack;
    var (sid, idx) := Unpack(id);
    if sid == SYNTHETIC || idx == 0 {
      return Err(IsDirectory);
    }
    if !snapshot.Loaded? {
      return Err(NoSnapshot(snapshot));
    }
    var store := snapshot.store;
    if idx - 1 >= |store.manifest.files| {
      return Err(NoEntry);
    }
    var file := store.manifest.files[idx - 1];
    if offset >= file.size {
      return Ok(([], true));
    }
    var len := Min(count, file.size - offset);
    var buf := ReadFile(store, idx - 1, offset, len, get, plain);
    if buf == None {
      return Err(InputOutput);
    }
    r := Ok((buf.value, offset + |buf.value| >= file.size));
  }
}
