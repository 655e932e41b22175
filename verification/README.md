# Depot file system: a verified model

Steam depots are mounted as read-only file systems: chunks are fetched on demand, kept in a
content-addressed cache, and put together into files that FUSE, NFS and ProjFS back ends list
and read. This project models the parts of that system whose correctness is not visible in any
one function, and proves it.

| files | what they model |
|---|---|
| `Frame`, `Text`, `ChunkNames` | the on-disk form of a chunk, and the names of chunk and temporary files |
| `Lru` | the 160-entry pool of decoded chunks |
| `ChunkCache`, `ChunkCacheLocks`, `ChunkCacheFiles`, `ChunkCacheIntegrity`, `ChunkCachePasses`, `ChunkCacheOnce`, `ChunkCacheRuns`, `ChunkCacheStored`, `ChunkCacheSuccess`, `ChunkCacheTidy` | the single-flight chunk cache as a transition system over any number of tasks, and nine families of theorems about its runs |
| `ChunkDir` | the shared state of that cache as an object, one method per critical section |
| `ManifestCache`, `ManifestCacheOnce`, `ManifestCacheRuns`, `ManifestCacheFlight`, `ManifestCacheSuccess`, `ManifestCacheAgreement` | the manifest cache's per-key fetch lock, likewise; exactly when it fetches once, when calls succeed, and when they agree |
| `Manifest`, `Paths`, `Sorting`, `ManifestFs`, `FileReader` | a manifest, its indexes, listing, range reads and the seekable reader |
| `Inode`, `SnapshotView` | node ids, and lookup and listing inside a mounted snapshot |
| `MountDirs`, `MountSlots`, `MountTree` | the mount tree: its changes as functions on a tree value, the laws they keep, and the object that makes them step by step |
| `Lifecycle`, `LifecycleSlots` | lazy snapshots: accesses, once-cells, promotion and removal in any interleaving |
| `Listings`, `Nfs`, `Fuse`, `ProjFs` | the three paged enumerations, and the reads of the first two |
| `Prefetch` | deduplication and the bounded pipeline |

Protocols are transition systems. One event is one atomic step of one task (with the answer the
operating system, the inner store or an opener gives it) or one thing the outside world does; an
event that is not enabled changes nothing, so a theorem over all event sequences is a theorem
over all interleavings. History variables (`persisted`, `saves`, `completed`, `opens`,
`origin`) are written
and never read by a step. Code that updates objects or loops is a class or a method with a loop.

SHA-1, zstd and the codec of manifest files are parameters. Of zstd one law is used:
decompressing what was compressed, with room for the original length, gives the original. SHA-1
is any function; no theorem needs it to be free of collisions.

## What the code does that its documentation does not say

- A chunk over 64 MiB is stored but its file can never be read back, so every cold reader
  downloads it again (`ChunkCacheRuns.StoredChunkIsKeptIff`).
- A read of a chunk's file, or an `ensure`'s `stat` of it, that fails under the lock counts as an absent file, and can
  cost one more download each time (`ChunkCacheOnce.DownloadsAreBounded`,
  `ChunkCacheRuns.EveryFailedReadCanCost`).
- An `ensure` does not read the file it finds: a corrupt one passes
  (`ChunkCacheStored.EnsuredMeansStoredIff`).
- Two loaders that both saw an undecodable manifest file can fetch twice, the slower one deleting
  the good file the faster one saved (`ManifestCacheRuns.TwoFetches`); or one of them fails
  (`ManifestCacheRuns.TwoDiscardsFail`).
- The manifest cache saves what a fetch brings under the ids it carries, and compares them with
  nothing. One manifest with other ids, and two saves of the key asked for can overlap, one call can
  fail, and another can return a manifest that is not the one saved
  (`ManifestCacheRuns.OtherIdsBreakTheFlight`). Callers of another key that are brought this key's
  manifest can share its temporary file and publish it torn (`ManifestCacheRuns.StrayTears`). What
  is needed for one fetch, for success and for agreement is exactly known
  (`ManifestCacheFlight.SingleFlightIff`, `ManifestCacheSuccess.CallsSucceedIff`,
  `ManifestCacheAgreement.CallsAgreeIff`).
- A refused mount still creates the directories of its app and depot
  (`MountSlots.ReserveWorks`).
- A directory entry without children is reported as not found by a listing
  (`ManifestFs.DepotManifestStore.ListDir`).
- A seek to 2^64 or beyond wraps around instead of failing
  (`FileReader.DepotFileReader.Seek`).
- A chunk shorter than the manifest says is an error for a range read, but makes the seekable
  reader panic, or report the end of the file where the chunk ends
  (`FileReader.DepotFileReader.Read`).
- A read that starts past the end is empty over NFS and an I/O error over FUSE
  (`Nfs.ReadInner`, `Fuse.Read`).

## Model

| member | source | states |
|---|---|---|
| Frame.RoundTripIff | crates/steam-depot-vfs/src/chunk_store/cache.rs:76-126 | decoding an encoded plaintext gives back exactly its SHA-1 and itself if and only if it is at most 67108864 bytes (64 MiB) |
| Frame.DecodesIff | crates/steam-depot-vfs/src/chunk_store/cache.rs:109-126 | exactly which byte strings decode, and to what: a 28-byte header of that length and digest, and a body that decompresses to a plaintext of that length, at most 67108864 |
| Frame.FrameLayout | crates/steam-depot-vfs/src/chunk_store/cache.rs:93-97 | a frame is eight bytes of length, lowest first, the digest, and the compressed body |
| Frame.RefusedByHeader | crates/steam-depot-vfs/src/chunk_store/cache.rs:114-118 | a frame shorter than 28 bytes, or claiming more than 67108864, is refused whatever the decompressor is |
| Frame.FromLittleEndianInverts | crates/steam-depot-vfs/src/chunk_store/cache.rs:93-114 | a length that fits the width is read back from its little-endian bytes |
| Frame.LittleEndianInverts | crates/steam-depot-vfs/src/chunk_store/cache.rs:114 | and the bytes from the number |
| Frame.LittleEndianAt | crates/steam-depot-vfs/src/chunk_store/cache.rs:93 | byte k of a length is its digit k to base 256 |
| Frame.FramesAreInjective | crates/steam-depot-vfs/src/chunk_store/cache.rs:83-97 | different plaintexts within the cap have different frames |
| Text.ParseHexInverts | crates/steam-depot/src/prefetch.rs:148-157 | parsing the hexadecimal name of a digest gives the digest |
| Text.ParseHexIff | crates/steam-depot/src/prefetch.rs:148-157 | exactly which strings parse, and to what: two hexadecimal digits per byte in either case, or a plus sign for the first of a small one |
| Text.HexAt | crates/steam-depot/src/prefetch.rs:148-157 | a digest prints in lower case, byte by byte, the high half first |
| Text.DecimalInjective | crates/steam-depot-mount/src/tree.rs:182-184 | different numbers have different directory names |
| Text.ParseDecimalInverts | crates/steam-depot-mount/src/tree.rs:182-184 | a directory name read as a decimal number is the number |
| Text.DecimalStarts | crates/steam-depot-mount/src/tree.rs:182-184 | and has no leading zeros |
| ChunkNames.FileNamesInjective | crates/steam-depot-vfs/src/chunk_store/cache.rs:269-275 | no two writers share a temporary name, not even of two processes, and no temporary name is a chunk's name |
| ChunkNames.ParseShaIff | crates/steam-depot/src/prefetch.rs:148-157 | exactly which file names are taken for chunks, and which for which |
| ChunkNames.ScanFindsOnlyChunks | crates/steam-depot/src/prefetch.rs:130-157 | scanning a cache directory recognises every chunk file as its chunk and no temporary file |
| Lru.ReplayIsRecency | crates/steam-depot-vfs/src/chunk_store/cache.rs:164-177 | after any lookups and insertions the pool holds exactly the most recently touched chunks, up to its capacity, in order of last touch |
| Lru.HeldIffRecentlyTouched | crates/steam-depot-vfs/src/chunk_store/cache.rs:55 | a chunk is held if and only if it was touched and fewer than the capacity distinct others have been touched since |
| ChunkDirectory.ChunkDir.ChunkLock | crates/steam-depot-vfs/src/chunk_store/cache.rs:153-161 | a registered lock that somebody still holds is shared; otherwise a fresh one replaces the entry |
| ChunkDirectory.ChunkDir.CacheHit | crates/steam-depot-vfs/src/chunk_store/cache.rs:164-170 | a hit returns the bytes and only changes the order |
| ChunkDirectory.ChunkDir.CacheDecoded | crates/steam-depot-vfs/src/chunk_store/cache.rs:172-177 | afterwards the chunk is held with those bytes, and the pool is within its capacity |
| ChunkCacheLocks.OneLoaderPerChunk | crates/steam-depot-vfs/src/chunk_store/cache.rs:153-161 | in every reachable state at most one task per chunk is inside the load section, and all lock objects in use for a chunk are the same |
| ChunkCacheLocks.ChunksDoNotShareLocks | crates/steam-depot-vfs/src/chunk_store/cache.rs:153-161 | loads of different chunks never use one lock |
| ChunkCacheLocks.NoDeadlock | crates/steam-depot-vfs/src/chunk_store/cache.rs:220-259 | while a task is unfinished, some task of its chunk can take a step |
| ChunkCacheLocks.StepsGoForward | crates/steam-depot-vfs/src/chunk_store/cache.rs:220-358 | every such step brings that task nearer its end, whatever the answer, and moves no other task |
| ChunkCacheFiles.WritersNeverCollide | crates/steam-depot-vfs/src/chunk_store/cache.rs:262-275 | concurrent writers of any chunks never use the same temporary file |
| ChunkCacheFiles.OnlyCompleteFramesArePublished | crates/steam-depot-vfs/src/chunk_store/cache.rs:350-357 | a chunk file was there before, was put there from outside, or is a whole frame of bytes hashing to its name, while others delete any file and replace chunk files |
| ChunkCacheIntegrity.ServedBytesHashToTheirName | crates/steam-depot-vfs/src/chunk_store/cache.rs:220-329 | everything `get` returns and everything in the pool hashes to its name, while files are deleted or replaced by junk or by frames of other chunks and the inner store returns anything; the pool has at most 160 entries |
| ChunkCacheIntegrity.InMemoryIffRecentlyTouched | crates/steam-depot-vfs/src/chunk_store/cache.rs:164-177 | in every reachable state a chunk is in the pool if and only if fewer than 160 distinct others were touched since its last touch by any task |
| ChunkCachePasses.PassTouches | crates/steam-depot-vfs/src/chunk_store/cache.rs:220-239 | reading a file by one `get` at a time touches its chunks once each, in order, hit or miss |
| ChunkCachePasses.HitIffInMemory | crates/steam-depot-vfs/src/chunk_store/cache.rs:221-223 | the first step of a `get` serves it if and only if the chunk is in the pool |
| ChunkCachePasses.HitUnderLockIff | crates/steam-depot-vfs/src/chunk_store/cache.rs:230-232 | so does the check under the lock, with the bytes of the pool and without touching the disk |
| ChunkCachePasses.EnsurePassesIff | crates/steam-depot-vfs/src/chunk_store/cache.rs:248-256 | both checks of an `ensure` pass if and only if the file is there and its `stat` succeeds, whatever is in the pool |
| ChunkCachePasses.LoadIsRemembered | crates/steam-depot-vfs/src/chunk_store/cache.rs:233-309 | what was read or downloaded is in the pool when the lock is released, and is what a `get` returns |
| ChunkCachePasses.RereadIsFromMemory | crates/steam-depot-vfs/src/chunk_store/cache.rs:48-55 | after any run, and a pass over a file of at most 160 distinct chunks, every `get` of a re-read, in any order and however often, is served from memory |
| ChunkCachePasses.CycleIsNeverFromMemory | crates/steam-depot-vfs/src/chunk_store/cache.rs:48-55 | reading more than 160 distinct chunks round and round, no `get` after the first pass is served from memory |
| ChunkCacheOnce.DownloadsAreBounded | crates/steam-depot-vfs/src/chunk_store/cache.rs:220-309 | with nobody else changing chunk files and chunks of at most 67108864 bytes, in any interleaving, whatever fetches, writes, deletions, reads and `stat`s fail: each chunk is downloaded and stored at most once more than its file, though there, could not be read, or by an `ensure` be `stat`ed, under the lock, and not even that once more if its file was good at the start; then its file is good |
| ChunkCacheOnce.PersistedAtMostOnce | crates/steam-depot-vfs/src/chunk_store/cache.rs:220-309 | so if in addition reads and `stat`s of existing files succeed, at most once, also from corrupt files, failed fetches and evictions |
| ChunkCacheRuns.EveryFailedReadCanCost | crates/steam-depot-vfs/src/chunk_store/cache.rs:248-259 | the bound is attained: for every n a run with n failed reads under the lock that stores a chunk n + 1 times |
| ChunkCacheRuns.FailedStatDownloadsAgain | crates/steam-depot-vfs/src/chunk_store/cache.rs:248-256 | two calls of `ensure`, the `stat`s of the second failing, download twice |
| ChunkCacheRuns.StoredChunkIsKeptIff | crates/steam-depot-vfs/src/chunk_store/cache.rs:109-117 | in any directory that holds a stored chunk, no such run downloads it again if and only if it is at most 67108864 bytes |
| ChunkCacheRuns.DamagedFileIsRefetched | crates/steam-depot-vfs/src/chunk_store/cache.rs:317-321 | a chunk file damaged from outside is downloaded again by the next cold `get` |
| ChunkCacheRuns.RemovedFileIsRefetched | crates/steam-depot-vfs/src/chunk_store/cache.rs:248-257 | a chunk file removed from outside is downloaded again by the next `ensure` |
| ChunkCacheStored.ServedMeansStored | crates/steam-depot-vfs/src/chunk_store/cache.rs:220-239 | with nobody else changing chunk files and chunks of at most 64 MiB, from any files, corrupt ones too, and whatever else fails: once a `get` has been served the chunk's good file is there for the rest of the run |
| ChunkCacheStored.BadFilePasses | crates/steam-depot-vfs/src/chunk_store/cache.rs:248-251 | an `ensure` over a bad file succeeds at once and leaves it |
| ChunkCacheStored.EnsuredMeansStoredIff | crates/steam-depot-vfs/src/chunk_store/cache.rs:242-259 | in all such runs a successful `ensure` means a good file if and only if the file is absent or good at the start |
| ChunkCacheSuccess.CallsSucceed | crates/steam-depot-vfs/src/chunk_store/cache.rs:220-309 | a finished `get` was served and a finished `ensure` succeeded unless the inner store failed it or the file system failed to write for it, whatever happened to the chunk files and their deletion, provided nobody outside deletes temporary files |
| ChunkCacheTidy.LetDownFails | crates/steam-depot-vfs/src/chunk_store/cache.rs:282-358 | a call that once gets no bytes, or not the chunk's, or whose temporary file cannot be created, written or renamed, ends in failure, whatever comes after |
| ChunkCacheTidy.BadFilesAreDeleted | crates/steam-depot-vfs/src/chunk_store/cache.rs:317-336 | with nobody else changing chunk files, and reads and deletions succeeding: while a chunk is being downloaded its file is gone, so one that does not decode or claims to be another chunk was deleted |
| ChunkCacheTidy.OnlyFailuresLeaveTemps | crates/steam-depot-vfs/src/chunk_store/cache.rs:350-357 | in any run a temporary file was there at the start, is being written, or was left by a call for its chunk that failed |
| ManifestCacheOnce.SavedAtMostOnce | crates/steam-depot-vfs/src/manifest_cache.rs:146-184 | from an absent or decodable file that nobody outside touches, as long as the fetches for the key, and only they, bring what is saved under it, and whatever else fails: at most one save of the key, no two at a time, and all callers that get a manifest get the same, though locks leave the table while waited on |
| ManifestCacheOnce.CachedManifestIsKept | crates/steam-depot-vfs/src/manifest_cache.rs:158-160 | in such runs a manifest in the cache is neither fetched nor replaced |
| ManifestCacheOnce.ReturnedMeansSaved | crates/steam-depot-vfs/src/manifest_cache.rs:174-183 | from an absent or decodable file that nobody outside touches, if the key's fetches bring the depot and manifest ids asked for and those for other keys of the app bring others: what a call returns is what the key's file holds from then on |
| ManifestCacheOnce.OwnMeansOwnIds | crates/steam-depot-vfs/src/manifest_cache.rs:126 | a fetch brings what is saved under its key if and only if it brings the depot and manifest ids asked for |
| ManifestCacheOnce.ApartMeansOtherIds | crates/steam-depot-vfs/src/manifest_cache.rs:126 | another key's fetches are saved elsewhere if and only if that key has another app or they bring other ids |
| ManifestCacheOnce.NoDeadlock | crates/steam-depot-vfs/src/manifest_cache.rs:162-184 | in any run, whatever is fetched, fails or changes outside: an unfinished call, or the one that holds the lock it waits for, can take a step |
| ManifestCacheOnce.StepsGoForward | crates/steam-depot-vfs/src/manifest_cache.rs:146-184 | every such step brings that call nearer its end, whatever the answer, and moves no other |
| ManifestCacheFlight.OneFlight | crates/steam-depot-vfs/src/manifest_cache.rs:146-184 | at most one fetch-and-save asked for by the key's callers completes, and at most one is under way, whatever fails, if its fetches can bring nothing; or if what other keys' fetches can bring is saved elsewhere, and the file decodes, or is absent and all that the key's fetches can bring carries its ids |
| ManifestCacheFlight.SingleFlightIff | crates/steam-depot-vfs/src/manifest_cache.rs:146-184 | this holds in all runs if and only if that condition on the file at the start and on what fetches can bring does |
| ManifestCacheRuns.TwoFetches | crates/steam-depot-vfs/src/manifest_cache.rs:87-100 | from an undecodable file, or an absent one if the first fetch brings other ids: two calls, for which nothing fails, both fetch and save |
| ManifestCacheRuns.TwoDiscardsFail | crates/steam-depot-vfs/src/manifest_cache.rs:90-99 | from an undecodable file: two callers go to remove it, and the second fails though nothing was refused |
| ManifestCacheRuns.OtherIdsBreakTheFlight | crates/steam-depot-vfs/src/manifest_cache.rs:174-182 | from an empty cache, with nothing refused and nobody outside, after a fetch that brought other ids: two saves of the key are under way at once; both complete; or one call fails and another returns a manifest the file does not hold |
| ManifestCacheRuns.StrayTears | crates/steam-depot-vfs/src/manifest_cache.rs:125-134 | if another key's fetch can bring this key's manifest: from any files, two callers of that key leave this key's file undecodable, one of their writes having failed half way |
| ManifestCacheRuns.OutsideFileIsReturned | crates/steam-depot-vfs/src/manifest_cache.rs:158-160 | a decodable file put into the cache from outside is what the next call for its key returns, without a fetch |
| ManifestCacheSuccess.CallsSucceed | crates/steam-depot-vfs/src/manifest_cache.rs:146-184 | a call for the key fails only if a fetch or the file system fails it, whatever fails for other keys' callers, if what other keys' fetches can bring is saved elsewhere, and the file decodes, or is absent and the key's fetches bring only its own manifests, or nothing |
| ManifestCacheSuccess.CallsSucceedIff | crates/steam-depot-vfs/src/manifest_cache.rs:146-184 | calls for the key fail only for those causes in all runs if and only if that condition holds |
| ManifestCacheSuccess.LetDownFails | crates/steam-depot-vfs/src/manifest_cache.rs:81-134 | a call that once gets no manifest, or whose file cannot be read, removed, written or renamed, ends in failure, whatever comes after, and that step changes no file |
| ManifestCacheAgreement.CallsAgree | crates/steam-depot-vfs/src/manifest_cache.rs:146-184 | all calls for the key that get a manifest get the same one, if there is only one to be had from the file and from what fetches can bring; or if what other keys' fetches can bring is saved elsewhere, and the file decodes, or is absent and the key's fetches bring only its own manifests |
| ManifestCacheAgreement.CallsAgreeIff | crates/steam-depot-vfs/src/manifest_cache.rs:146-184 | they agree in all runs if and only if that condition holds |
| ManifestCacheAgreement.GotWasToBeHad | crates/steam-depot-vfs/src/manifest_cache.rs:146-184 | a call returns nothing but what its file held at the start, what a fetch for its key brought, or what one for another key brought that is saved there |
| Manifests.ByPathFinds | crates/steam-depot-vfs/src/fs.rs:49-55 | the path index has exactly the paths of the manifest, the last file of a path winning |
| Manifests.ChildrenAreIndexes | crates/steam-depot-vfs/src/fs.rs:49-55 | the incrementally built directory index has exactly the non-empty directories, each with its files in order |
| Manifests.IndexesAreAll | crates/steam-depot-vfs/src/fs.rs:51-55 | every file is among the children of its directory |
| Paths.FileNameLaws | crates/steam-depot-vfs/src/fs.rs:161-164 | the name in a listing is the last component; a trailing slash or dot component does not count, and two dots are no name |
| Paths.NameLeIff | crates/steam-depot-mount/src/view.rs:130 | names are ordered by the first character that differs, a beginning before what it begins |
| Manifests.ContentAt | crates/steam-depot-vfs/src/fs.rs:244-272 | in a file of contiguous chunks, each chunk is the part of the content between its offsets |
| ManifestFs.DepotManifestStore.constructor | crates/steam-depot-vfs/src/fs.rs:48-68 | the loop builds both indexes of the manifest |
| ManifestFs.DepotManifestStore.FirstMissingComponent | crates/steam-depot-vfs/src/fs.rs:108-124 | the shortest prefix, cut at a component's end, that is neither a file nor a directory; none exactly if all prefixes exist |
| ManifestFs.KnownIff | crates/steam-depot-vfs/src/fs.rs:116-118 | what counts as there: the paths of files, and the directories files are in |
| ManifestFs.SlashDoesNotMatter | crates/steam-depot-vfs/src/fs.rs:83-85 | a path finds the last file at it, with or without one slash before it |
| ManifestFs.DepotManifestStore.Metadata | crates/steam-depot-vfs/src/fs.rs:126-145 | size and kind of the indexed file, a directory for the root, else not found with the missing component |
| ManifestFs.DepotManifestStore.ListDir | crates/steam-depot-vfs/src/fs.rs:148-175 | the file names, sizes and kinds of exactly the direct children, in manifest order; an error exactly if there are none |
| ManifestFs.DepotManifestStore.ReadInto | crates/steam-depot-vfs/src/fs.rs:203-275 | on success appends exactly the content from the offset to the end of the range or file; on a chunk error appends a prefix of it; asks, in order, for exactly the chunks that overlap the range; fails only for a missing path, a directory, an offset past the end, or a chunk that is lacking |
| FileReader.EveryPositionCovered | crates/steam-depot-vfs/src/fs.rs:364-382 | within a contiguous file the chunk under every position is found |
| FileReader.DepotFileReader.ChunkBytes | crates/steam-depot-vfs/src/fs.rs:386-397 | the kept chunk always matches its index, and an error keeps what was kept |
| FileReader.DepotFileReader.Read | crates/steam-depot-vfs/src/fs.rs:358-405 | delivers the content at the position and moves by as much, at least one byte before the end; an error changes nothing; what a too short chunk does |
| FileReader.DepotFileReader.Seek | crates/steam-depot-vfs/src/fs.rs:408-423 | refuses exactly the positions before the start, leaving the position alone; other positions are reached if and only if they fit a 64-bit word |
| FileReader.ReadToEnd | crates/steam-depot-vfs/src/fs.rs:358-405 | reading on until nothing comes terminates and delivers exactly the rest of the content, as one range read would |
| Inode.PackUnpack | crates/steam-depot-mount/src/inode.rs:28-35 | unpacking a packed id gives its parts |
| Inode.UnpackPack | crates/steam-depot-mount/src/inode.rs:28-35 | packing the parts of any 64-bit id gives the id |
| Inode.PackUnpackBits | crates/steam-depot-mount/src/inode.rs:25-35 | on machine words the round trip holds if and only if the index fits 48 bits |
| Inode.PackIsPackBits | crates/steam-depot-mount/src/inode.rs:28-31 | shifting by 48 and or-ing in a 48-bit index is the arithmetic packing |
| Inode.UnpackIsUnpackBits | crates/steam-depot-mount/src/inode.rs:33-35 | shifting back and masking any word is the arithmetic unpacking |
| SnapshotView.ChildAt | crates/steam-depot-mount/src/view.rs:161-171 | one lookup below a directory finds the file the index has for the joined path, or fails |
| SnapshotView.ChildShowsFile | crates/steam-depot-mount/src/view.rs:161-171 | what is found shows the file of that path: a directory exactly if it is one, a link with exactly its target, a file with its executable bit; its size, the manifest's time, and the id of its place in the manifest |
| SnapshotView.NodeShowsFile | crates/steam-depot-mount/src/view.rs:146-159 | node 0 is the root directory, node n + 1 shows the n-th file, and there are no others |
| SnapshotView.WalkIff | crates/steam-depot-mount/src/view.rs:161-171 | walking names from the root finds a node if and only if every prefix has an entry, and then it is the node of the whole path |
| SnapshotView.WalkAgreesWithIndex | crates/steam-depot-mount/src/view.rs:161-171 | with an entry for every ancestor, a walk reaches exactly the inode of the indexed file, and fails exactly if the path is absent |
| SnapshotView.SnapshotDir | crates/steam-depot-mount/src/view.rs:173-205 | every listed entry is what looking up its name gives, every slash-free name that is found is listed once, names are strictly increasing; no listing exactly for a directory without children |
| SnapshotView.ListedShowsFile | crates/steam-depot-mount/src/view.rs:173-205 | every listed entry shows a file of that directory in the same sense, under its last component |
| SnapshotView.ListedInosDiffer | crates/steam-depot-mount/src/view.rs:186-203 | the entries of a listing have different node ids, none of them 0 |
| SnapshotView.SnapshotListingIsUnique | crates/steam-depot-mount/src/view.rs:173-205 | a directory of a snapshot has one listing |
| Listings.ListDirectory | crates/steam-depot-mount/src/view.rs:120-132 | the listing of a synthetic directory or of one inside a snapshot; if there is none, nothing is found in it |
| Listings.ListingIsUnique | crates/steam-depot-mount/src/view.rs:120-205 | however often an unchanged directory is listed, the listing is the same |
| Listings.ListingIsInOrder | crates/steam-depot-mount/src/view.rs:130-203 | names in a listing are different and come in the order of their characters' codes |
| MountDirs.EnsureDirWorks | crates/steam-depot-mount/src/tree.rs:301-321 | the directory of that name below the parent is found or made at the path of the parent and the name; the tree's invariant and everything else stay |
| MountDirs.SamePathSameDir | crates/steam-depot-mount/src/tree.rs:338-350 | two directories with one path are one |
| MountSlots.ReserveWorks | crates/steam-depot-mount/src/tree.rs:174-219 | refused as mounted exactly if a live slot has the triple, as full exactly if 65535 ids are used up; otherwise the next id is given to a slot with that triple; the index gains just the two paths; the invariant holds |
| MountSlots.RemoveWorks | crates/steam-depot-mount/src/tree.rs:224-235 | a live slot is emptied and detached from its directory, anything else is untouched; the invariant holds |
| MountSlots.PromoteKeepsInv | crates/steam-depot-mount/src/tree.rs:281-299 | promoting any id keeps the invariant |
| MountSlots.FindIff | crates/steam-depot-mount/src/tree.rs:240-250 | finding a triple gives an id if and only if that id is a live slot with the triple |
| MountSlots.TriplesAreUnique | crates/steam-depot-mount/src/tree.rs:185-191 | no two live slots share app, depot and manifest |
| MountSlots.ChildIffMounted | crates/steam-depot-mount/src/tree.rs:185-217 | a depot directory's children are exactly the roots of the live slots with that app and depot |
| MountSlots.MountedIsFound | crates/steam-depot-mount/src/tree.rs:182-217 | a mounted snapshot's root, its id times 2^48, is found below the root under its app, its depot and its manifest id |
| MountSlots.FoundIsMounted | crates/steam-depot-mount/src/tree.rs:182-235 | nothing else is found three levels down |
| MountSlots.ChildrenDiffer | crates/steam-depot-mount/src/tree.rs:316-319 | children of a synthetic directory have different node ids, none of them 0 |
| MountSlots.RunKeepsInv | crates/steam-depot-mount/src/tree.rs:119-299 | after any sequence of mounts, lazy mounts, promotions and removals the directories, the path index and the slots agree; a live slot is as it was made until it is loaded, and then has its snapshot and the time of its manifest; ids stay at most 65535 |
| MountSlots.RemovedStaysRemoved | crates/steam-depot-mount/src/tree.rs:221-223 | no sequence of changes reuses an id that was removed |
| MountTrees.MountTree.constructor | crates/steam-depot-mount/src/tree.rs:96-117 | a new tree is in order |
| MountTrees.MountTree.EnsureSynthetic | crates/steam-depot-mount/src/tree.rs:301-321 | does to the fields what `EnsureDir` does to the value |
| MountTrees.MountTree.ReserveSlot | crates/steam-depot-mount/src/tree.rs:174-219 | does to the fields what `Reserve` does to the value |
| MountTrees.MountTree.Add | crates/steam-depot-mount/src/tree.rs:123-138 | the next id with a loaded slot and the manifest's time, or the refusal, and nothing else in the slot table |
| MountTrees.MountTree.AddLazy | crates/steam-depot-mount/src/tree.rs:145-164 | the next id with a pending slot and the hint, or the refusal |
| MountTrees.MountTree.Remove | crates/steam-depot-mount/src/tree.rs:224-235 | returns and empties the slot, leaving all others |
| MountTrees.MountTree.Promote | crates/steam-depot-mount/src/tree.rs:281-299 | a pending slot gets the snapshot and its time; a loaded or removed one is left alone |
| MountTrees.MountTree.Find | crates/steam-depot-mount/src/tree.rs:240-250 | exactly the id of the live slot with the triple |
| MountTrees.MountTree.ListSynthetic | crates/steam-depot-mount/src/view.rs:110-132 | a synthetic listing has every name that is found, once, sorted, with the node that looking it up gives, and different ids |
| MountTrees.SyntheticListingIsUnique | crates/steam-depot-mount/src/view.rs:120-132 | an unchanged directory has one listing, whatever order its children are stored in, so separate calls page through the same list |
| MountTrees.WalkToSnapshot | crates/steam-depot-mount/src/view.rs:110-118 | looking up app, depot and manifest id one below the other ends at the root of the snapshot mounted as that, and finds nothing exactly if there is none |
| MountTrees.ChildShows | crates/steam-depot-mount/src/view.rs:134-144 | a synthetic child is a directory of size 0; a snapshot's root shows its slot's time, anything else 0 |
| Lifecycle.OpenersRunOnce | crates/steam-depot-mount/src/view.rs:79-97 | over any interleaving no opener is called twice |
| Lifecycle.AccessesAgree | crates/steam-depot-mount/src/view.rs:63-97 | all accesses to an id that found it end alike: the same snapshot, or all the failure |
| Lifecycle.SlotsAgreeWithAccesses | crates/steam-depot-mount/src/tree.rs:281-299 | a loaded slot holds the snapshot accesses were given |
| LifecycleSlots.GotIsPromoted | crates/steam-depot-mount/src/view.rs:79-97 | once an access has been given a snapshot, the slot of its id, if still there, holds exactly that snapshot and shows its manifest's time, also if it was mounted lazily |
| LifecycleSlots.GotWasOpened | crates/steam-depot-mount/src/view.rs:79-94 | the manifest an access gets is the one that was mounted, or one an opener returned to an access to the same id |
| LifecycleSlots.SlotsWereAsked | crates/steam-depot-mount/src/tree.rs:123-164 | a slot that is there was mounted under its app, depot and manifest id with the manifest it holds, or lazily, and until it is loaded shows the time it was given |
| Lifecycle.RemovedIsGone | crates/steam-depot-mount/src/tree.rs:278-287 | once an id is removed no resolve in flight brings it back, and no later access finds it |
| Lifecycle.KeptIsFound | crates/steam-depot-mount/src/view.rs:63-75 | while an id is not removed no access finds it missing |
| Lifecycle.FailureHasCause | crates/steam-depot-mount/src/view.rs:86-96 | an access fails to open only if an opener failed |
| Lifecycle.NoAccessIsStuck | crates/steam-depot-mount/src/view.rs:79-97 | an unfinished access, or the opener it waits for, can take a step nearer its end, and only that one moves |
| Lifecycle.RunSound | crates/steam-depot-mount/src/view.rs:63-97 | the tree's invariant, one filler per cell, and the agreement of slots, cells and accesses hold over every run |
| Nfs.PageAt | crates/steam-depot-mount/src/nfs.rs:279-297 | with the cookie after n entries the page starts at entry n, and the end flag is true exactly if it reaches the last entry |
| Nfs.FollowingCookies | crates/steam-depot-mount/src/nfs.rs:262-298 | following cookies through one listing, with at least one entry kept per page, delivers it in order, each entry once, and all of it after enough calls |
| Nfs.CallsDeliver | crates/steam-depot-mount/src/nfs.rs:262-298 | the same for calls that each make their own listing of an unchanged directory, synthetic or in a snapshot; and a next page says it is the last exactly if it completes the listing |
| Nfs.EndMeansAll | crates/steam-depot-mount/src/nfs.rs:296 | the end flag is true exactly if the client then has the whole listing |
| Nfs.UnknownCookieRestarts | crates/steam-depot-mount/src/nfs.rs:275-286 | a cookie of no entry starts the listing over |
| Nfs.ReaddirInner | crates/steam-depot-mount/src/nfs.rs:262-298 | a page of the directory's listing, synthetic or of a resolved snapshot; no entry exactly when there is no listing to page or no slot, an I/O error for a failed opener |
| Nfs.ReadInner | crates/steam-depot-mount/src/nfs.rs:220-260 | the content from the offset up to the count or the end, with the end flag exactly if the end is reached; which ids, missing slots and failures give which status |
| Fuse.EmitReaddir | crates/steam-depot-mount/src/fuse.rs:271-294 | the reply has the items from the offset on, as many as fit and no fewer |
| Fuse.ItemsAre | crates/steam-depot-mount/src/fuse.rs:278-303 | the items are the directory as itself and as its parent, and each entry with its id and name, directories as such and everything else as a regular file |
| Fuse.FollowingOffsets | crates/steam-depot-mount/src/fuse.rs:271-294 | following offsets, with room for one entry per reply, delivers the directory, its parent and the listing in order, each once, and all of it after enough replies |
| Fuse.Readdir | crates/steam-depot-mount/src/fuse.rs:111-132 | a page of the directory's items, synthetic or of a resolved snapshot, an unlistable directory being empty; or which error |
| Fuse.RepliesDeliver | crates/steam-depot-mount/src/fuse.rs:111-132 | replies that each make their own listing of an unchanged directory deliver its items, each once and in order |
| Fuse.Read | crates/steam-depot-mount/src/fuse.rs:134-189 | the content of the range, or which error, a missing slot and a failed opener included |
| ProjFs.Context.StartDirEnum | crates/projfs/src/lib.rs:247-278 | a session at its beginning over exactly the listed entries, sorted by the system's comparison if that is an order, those it cannot tell apart in the order listed; other sessions untouched |
| ProjFs.Context.BeginScan | crates/projfs/src/lib.rs:294-313 | a restart rewinds and forgets the pattern; the first call of a scan captures its own |
| ProjFs.Context.GetDirEnum | crates/projfs/src/lib.rs:280-342 | what goes into the buffer and what is left make up what was pending; the call stops only at the end or at an entry the buffer does not take, and the code says which |
| ProjFs.Context.EndDirEnum | crates/projfs/src/lib.rs:344-353 | exactly that session is gone |
| ProjFs.ScanDelivers | crates/projfs/src/lib.rs:280-342 | between restarts the calls deliver the entries matching the first call's pattern in order, each once, whatever the buffers take |
| ProjFs.FinishedScanDelivers | crates/projfs/src/lib.rs:294-341 | a scan that has ended has delivered exactly the entries the first call's pattern matches, each once and in order; no pattern and an empty one match everything |
| ProjFs.ScanDeliversFirst | crates/projfs/src/lib.rs:294-341 | one that has not ended has delivered the first of them |
| ProjFs.SelectionSorted | crates/projfs/src/lib.rs:262-264 | what a scan delivers is in the system's order |
| ProjFs.ScanEnds | crates/projfs/src/lib.rs:331-340 | success without an entry means all has been delivered; the insufficient-buffer code means a matching entry is left and did not fit alone |
| ProjFs.ScanGetsOn | crates/projfs/src/lib.rs:316-339 | if every buffer takes one entry, enough calls deliver everything |
| Prefetch.Deduplicate | crates/steam-depot/src/prefetch.rs:170-189 | fetched and skipped chunks partition the manifest's distinct chunks along what is cached, and their byte totals add up to the whole |
| Prefetch.FirstSizeIsFirst | crates/steam-depot/src/prefetch.rs:184 | of several sizes given for a chunk the first counts |
| Prefetch.FirstReferenceCounts | crates/steam-depot/src/prefetch.rs:174-184 | that is the one in its first file, at its first place there |
| Prefetch.SumSplits | crates/steam-depot/src/prefetch.rs:187-194 | totals of a map split along any set of keys |
| Prefetch.WorkList | crates/steam-depot/src/prefetch.rs:233-238 | every chunk to fetch is in the work exactly once, with its size, in the order of the digests, by the first byte that differs |
| Prefetch.Pipeline | crates/steam-depot/src/prefetch.rs:237-328 | never more than the given number of tasks in flight; submitted tasks are a prefix of the work and each ends once and is counted by how it ended; nothing is submitted after a shutdown; without one work is left over only if exactly as many tasks as fit in flight panicked; it terminates |
| Prefetch.CountsAddUp | crates/steam-depot/src/prefetch.rs:295-311 | every end of a task is counted once |
| Prefetch.FetchMissing | crates/steam-depot/src/prefetch.rs:203-328 | each missing chunk is submitted at most once, with its size, and every one of them if there is no shutdown and fewer tasks panic than fit in flight; the count and bytes reported are those of exactly the chunks whose task succeeded |
| Prefetch.PrefetchSnapshot | crates/steam-depot/src/prefetch.rs:169-328 | the same for the distinct chunks of the manifest that are not cached; without a shutdown, and if every task succeeds, the chunks and bytes fetched make up, with those skipped, exactly the manifest's |

## Left out

- ChunkCacheFiles.OnlyCompleteFramesArePublished: a write counts as done when the call returns, because the flush of a dropped file handle belongs to the runtime; and others may delete temporary files but not rewrite them.
- ChunkCacheFiles.WritersNeverCollide: does not model the wrap-around of the 64-bit write counter.
- ChunkCacheIntegrity.ServedBytesHashToTheirName: a file that decodes is assumed to hold bytes that hash to its embedded digest, which is what the frame's content checksum is for.
- A write of a temporary manifest file is one step: complete, torn or not begun. Two writers of one such file, which only manifests with other ids bring about, could also mix their bytes.
- ManifestFs.DepotManifestStore.ReadInto: requires offset plus length to fit a 64-bit word, because the sum is unchecked in the source.
- MountTrees.MountTree.ReserveSlot: requires room for two directories below 2^48, as the debug assertion of `pack` does.
- ProjFs.Context.StartDirEnum: the source's directory listing and the system's name comparison are parameters.
- Prefetch.Pipeline: a panic is an outcome a task may have; why it panics is not modelled.
- Nfs.ReaddirInner: what an access to the slot ends in is a parameter here; how it comes about is the subject of `Lifecycle`.
- Async cancellation: every task runs to its end. A cancelled opener could be started again.
- fsync, power loss and other processes writing the cache, except as the outside changes of the transition systems.
- The table of chunk locks is not claimed to shrink: dead entries are only overwritten.
- Names that are not Unicode, and the path rules of Windows, are not modelled.
- Symbolic links always have a target.
- The NFS and FUSE attribute structures, permissions and times, `lookup` and `getattr`: single-branch mappings.
- Steam login, depot keys, CDN, sessions, mount and unmount commands: the inner store is an oracle that may fail or return anything.
- The store statistics and verification commands, which hash stored file bytes where the cache stores compressed frames.
- The prefetch progress display and the retry loop around it, configuration, tracing, benches and examples.
- The mirror types of the manifest file format: a field-by-field copy.
- ProjFS foreign-function plumbing: identifiers, buffers and result codes are numbers, predicates and a datatype.
