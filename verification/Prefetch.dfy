/** Prefetching a snapshot: which chunks are fetched, and the pipeline that fetches them. */
module Prefetch {
  import opened Prelude
  import opened Sorting

  datatype ChunkRef = ChunkRef(sha: Sha, sizeCompressed: nat)

  // ---- What is fetched and what is skipped ----

  /** The chunks of all files, file by file. */
  function AllChunks(files: seq<seq<ChunkRef>>): seq<ChunkRef> {
    if files == [] then [] else AllChunks(files[..|files| - 1]) + files[|files| - 1]
  }

  function Shas(chunks: seq<ChunkRef>): (r: set<Sha>)
    ensures forall i | 0 <= i < |chunks| :: chunks[i].sha in r
    ensures forall sha | sha in r :: exists i :: 0 <= i < |chunks| && chunks[i].sha == sha
  {
    set i | 0 <= i < |chunks| :: chunks[i].sha
  }

  /** The size a chunk has where it is first referred to. */
  function FirstSizes(chunks: seq<ChunkRef>): map<Sha, nat> {
    if chunks == [] then map[]
    else
      var before, c := FirstSizes(chunks[..|chunks| - 1]), chunks[|chunks| - 1];
      if c.sha in before then before else before[c.sha := c.sizeCompressed]
  }

  lemma ShasOfMore(chunks: seq<ChunkRef>, c: ChunkRef)
    ensures Shas(chunks + [c]) == Shas(chunks) + {c.sha}
  {
    var more := chunks + [c];
    forall sha | sha in Shas(more) ensures sha in Shas(chunks) + {c.sha} {
      var i :| 0 <= i < |more| && more[i].sha == sha;
      assert i < |chunks| ==> chunks[i] == more[i];
    }
    forall sha | sha in Shas(chunks) ensures sha in Shas(more) {
      var i :| 0 <= i < |chunks| && chunks[i].sha == sha;
      assert more[i] == chunks[i];
    }
    assert more[|chunks|] == c;
  }

  lemma {:induction false} FirstSizesOfAll(chunks: seq<ChunkRef>)
    ensures FirstSizes(chunks).Keys == Shas(chunks)
  {
    if chunks != [] {
      var n := |chunks| - 1;
      FirstSizesOfAll(chunks[..n]);
      assert chunks == chunks[..n] + [chunks[n]];
      ShasOfMore(chunks[..n], chunks[n]);
    }
  }

  /** `chunks[i]` is the first reference to its chunk. */
  ghost predicate FirstAt(chunks: seq<ChunkRef>, i: nat) {
    i < |chunks| && forall j | 0 <= j < i :: chunks[j].sha != chunks[i].sha
  }

  lemma {:induction false} FirstSizeIsFirst(chunks: seq<ChunkRef>, i: nat)
    requires FirstAt(chunks, i)
    ensures chunks[i].sha in FirstSizes(chunks) && FirstSizes(chunks)[chunks[i].sha] == chunks[i].sizeCompressed
    decreases |chunks|
  {
    var n := |chunks| - 1;
    if i < n {
      assert FirstAt(chunks[..n], i);
      FirstSizeIsFirst(chunks[..n], i);
    } else {
      FirstSizesOfAll(chunks[..n]);
    }
  }

  /** No chunk before number `j` of file `i`, in that file or an earlier one, has its digest. */
  ghost predicate FirstReference(files: seq<seq<ChunkRef>>, i: nat, j: nat)
    requires i < |files| && j < |files[i]|
  {
    && (forall k, l | 0 <= k < i && 0 <= l < |files[k]| :: files[k][l].sha != files[i][j].sha)
    && (forall l | 0 <= l < j :: files[i][l].sha != files[i][j].sha)
  }

  lemma {:induction false} ComesFrom(files: seq<seq<ChunkRef>>, p: nat) returns (k: nat, l: nat)
    requires p < |AllChunks(files)|
    ensures k < |files| && l < |files[k]| && files[k][l] == AllChunks(files)[p]
    decreases |files|
  {
    var last := |files| - 1;
    var before := AllChunks(files[..last]);
    if p < |before| {
      k, l := ComesFrom(files[..last], p);
    } else {
      k, l := last, p - |before|;
    }
  }

  /** `c` is in an earlier file than `i`, or in that file before place `j`. */
  ghost predicate Earlier(files: seq<seq<ChunkRef>>, i: nat, j: nat, c: ChunkRef)
    requires i < |files| && j <= |files[i]|
  {
    || (exists k, l :: 0 <= k < i && 0 <= l < |files[k]| && files[k][l] == c)
    || (exists l :: 0 <= l < j && files[i][l] == c)
  }

  lemma EarlierInMore(files: seq<seq<ChunkRef>>, i: nat, j: nat, c: ChunkRef)
    requires i < |files| - 1 && j <= |files[i]| && Earlier(files[..|files| - 1], i, j, c)
    ensures Earlier(files, i, j, c)
  {
    var less := files[..|files| - 1];
    if k, l :| 0 <= k < i && 0 <= l < |less[k]| && less[k][l] == c {
      assert files[k][l] == c;
    } else {
      var l :| 0 <= l < j && less[i][l] == c;
      assert files[i][l] == c;
    }
  }

  /** A chunk of a file is among all chunks, and what comes before it comes from before it. */
  lemma {:induction false} PlaceOf(files: seq<seq<ChunkRef>>, i: nat, j: nat) returns (n: nat)
    requires i < |files| && j < |files[i]|
    ensures n < |AllChunks(files)| && AllChunks(files)[n] == files[i][j]
    ensures forall p | 0 <= p < n :: Earlier(files, i, j, AllChunks(files)[p])
    decreases |files|
  {
    var last := |files| - 1;
    var before := AllChunks(files[..last]);
    n := if i < last then 0 else |before| + j;
    if i < last {
      n := PlaceOf(files[..last], i, j);
    }
    forall p | 0 <= p < n ensures Earlier(files, i, j, AllChunks(files)[p]) {
      if i < last {
        EarlierInMore(files, i, j, before[p]);
      } else if p < |before| {
        var k, l := ComesFrom(files[..last], p);
        assert files[k][l] == AllChunks(files)[p];
      } else {
        assert files[i][p - |before|] == AllChunks(files)[p];
      }
    }
  }

  /** A chunk's size is the one it has where the manifest first refers to it: in its first file, and
      there at its first place. */
  lemma FirstReferenceCounts(files: seq<seq<ChunkRef>>, i: nat, j: nat)
    requires i < |files| && j < |files[i]| && FirstReference(files, i, j)
    ensures var sizes, c := FirstSizes(AllChunks(files)), files[i][j];
            c.sha in sizes && sizes[c.sha] == c.sizeCompressed
  {
    var n := PlaceOf(files, i, j);
    var all := AllChunks(files);
    assert FirstAt(all, n) by {
      forall p | 0 <= p < n ensures all[p].sha != all[n].sha {
        assert Earlier(files, i, j, all[p]);
      }
    }
    FirstSizeIsFirst(all, n);
  }

  ghost function Sum(m: map<Sha, nat>): nat {
    if m == map[] then 0
    else
      var sha :| sha in m;
      m[sha] + Sum(m - {sha})
  }

  /** The sum does not depend on the order. */
  lemma {:induction false} SumWithout(m: map<Sha, nat>, sha: Sha)
    requires sha in m
    ensures Sum(m) == m[sha] + Sum(m - {sha})
    decreases m
  {
    var first :| first in m && Sum(m) == m[first] + Sum(m - {first});
    if first != sha {
      SumWithout(m - {first}, sha);
      SumWithout(m - {sha}, first);
      assert m - {first} - {sha} == m - {sha} - {first};
    }
  }

  lemma SumWith(m: map<Sha, nat>, sha: Sha, size: nat)
    requires sha !in m
    ensures Sum(m[sha := size]) == Sum(m) + size
  {
    SumWithout(m[sha := size], sha);
    assert m[sha := size] - {sha} == m;
  }

  /** The part of `m` in `keys`. */
  function Within(m: map<Sha, nat>, keys: set<Sha>): map<Sha, nat> {
    map sha | sha in m && sha in keys :: m[sha]
  }

  /** What is cached and what is not add up to the whole. */
  lemma {:induction false} SumSplits(m: map<Sha, nat>, keys: set<Sha>)
    ensures Sum(m) == Sum(Within(m, keys)) + Sum(m - keys)
    decreases m
  {
    if m == map[] {
      assert Within(m, keys) == map[] && m - keys == map[];
    } else {
      var sha :| sha in m;
      var rest := m - {sha};
      SumWithout(m, sha);
      SumSplits(rest, keys);
      if sha in keys {
        SumWithout(Within(m, keys), sha);
        assert Within(m, keys) - {sha} == Within(rest, keys) && rest - keys == m - keys;
      } else {
        SumWithout(m - keys, sha);
        assert (m - keys) - {sha} == rest - keys && Within(rest, keys) == Within(m, keys);
      }
    }
  }

  /** One reference: skipped if it is cached, counted once; to be fetched once if not. */
  lemma Refer(before: seq<ChunkRef>, c: ChunkRef, cached: set<Sha>)
    ensures var sizes, sizes' := FirstSizes(before), FirstSizes(before + [c]);
            var known := c.sha in sizes;
            && sizes' == (if known then sizes else sizes[c.sha := c.sizeCompressed])
            && (c.sha in cached ==>
                  && sizes' - cached == sizes - cached
                  && Within(sizes', cached).Keys == Within(sizes, cached).Keys + {c.sha}
                  && (known <==> c.sha in Within(sizes, cached))
                  && Sum(Within(sizes', cached)) == Sum(Within(sizes, cached)) + if known then 0 else c.sizeCompressed)
            && (c.sha !in cached ==>
                  && Within(sizes', cached) == Within(sizes, cached)
                  && sizes' - cached == if known then sizes - cached else (sizes - cached)[c.sha := c.sizeCompressed])
  {
    assert (before + [c])[..|before|] == before;
    var sizes, sizes' := FirstSizes(before), FirstSizes(before + [c]);
    if c.sha in cached && c.sha !in sizes {
      SumWith(Within(sizes, cached), c.sha, c.sizeCompressed);
      assert Within(sizes', cached) == Within(sizes, cached)[c.sha := c.sizeCompressed];
    }
  }

  /** What the counts are once `seen` has been gone through. */
  ghost predicate Counted(seen: seq<ChunkRef>, cached: set<Sha>, unique: map<Sha, nat>, skipped: set<Sha>, bytes: nat) {
    && unique == FirstSizes(seen) - cached
    && skipped == Within(FirstSizes(seen), cached).Keys
    && bytes == Sum(Within(FirstSizes(seen), cached))
  }

  lemma CountOne(seen: seq<ChunkRef>, c: ChunkRef, cached: set<Sha>, unique: map<Sha, nat>, skipped: set<Sha>, bytes: nat)
    requires Counted(seen, cached, unique, skipped, bytes)
    ensures c.sha in cached ==>
              Counted(seen + [c], cached, unique, skipped + {c.sha},
                      bytes + if c.sha in skipped then 0 else c.sizeCompressed)
    ensures c.sha !in cached ==>
              Counted(seen + [c], cached, if c.sha in unique then unique else unique[c.sha := c.sizeCompressed],
                      skipped, bytes)
  {
    hide FirstSizes, Sum;
    Refer(seen, c, cached);
  }

  lemma CountsAreWhole(seen: seq<ChunkRef>, cached: set<Sha>, unique: map<Sha, nat>, skipped: set<Sha>, bytes: nat)
    requires Counted(seen, cached, unique, skipped, bytes)
    ensures unique.Keys + skipped == Shas(seen) && unique.Keys !! skipped && skipped <= cached
    ensures unique.Keys !! cached
    ensures Sum(unique) + bytes == Sum(FirstSizes(seen))
  {
    hide FirstSizes, Sum;
    FirstSizesOfAll(seen);
    SumSplits(FirstSizes(seen), cached);
  }

  lemma NothingCounted(cached: set<Sha>)
    ensures Counted([], cached, map[], {}, 0)
  {
    assert Within(map[], cached) == map[];
  }

  lemma CountedUnique(seen: seq<ChunkRef>, cached: set<Sha>, unique: map<Sha, nat>, skipped: set<Sha>, bytes: nat)
    requires Counted(seen, cached, unique, skipped, bytes)
    ensures unique == FirstSizes(seen) - cached
  {}

  /** Chunks to fetch with the size first seen, and those already there. Every chunk of the
      manifest is in exactly one of the two, and so is every byte. */
  method Deduplicate(files: seq<seq<ChunkRef>>, cached: set<Sha>)
    returns (unique: map<Sha, nat>, skipped: set<Sha>, skippedBytes: nat)
    ensures unique.Keys + skipped == Shas(AllChunks(files)) && unique.Keys !! skipped && skipped <= cached
    ensures unique.Keys !! cached
    ensures unique == FirstSizes(AllChunks(files)) - cached
    ensures Sum(unique) + skippedBytes == Sum(FirstSizes(AllChunks(files)))
  {
    hide Counted, FirstSizes, Sum;
    unique, skipped, skippedBytes := map[], {}, 0;
    NothingCounted(cached);
    ghost var seen: seq<ChunkRef> := [];
    for i := 0 to |files|
      invariant seen == AllChunks(files[..i])
      invariant Counted(seen, cached, unique, skipped, skippedBytes)
    {
      assert files[..i + 1][..i] == files[..i];
      ghost var earlier := seen;
      for k := 0 to |files[i]|
        invariant seen == earlier + files[i][..k]
        invariant Counted(seen, cached, unique, skipped, skippedBytes)
      {
        var c := files[i][k];
        CountOne(seen, c, cached, unique, skipped, skippedBytes);
        assert earlier + files[i][..k + 1] == (earlier + files[i][..k]) + [c];
        seen := seen + [c];
        if c.sha in cached {
          if c.sha in skipped {
            assert skipped + {c.sha} == skipped;
          } else {
            skipped := skipped + {c.sha};
            skippedBytes := skippedBytes + c.sizeCompressed;
          }
          continue;
        }
        if c.sha !in unique {
          unique := unique[c.sha := c.sizeCompressed];
        }
      }
      assert files[i][..|files[i]|] == files[i];
    }
    assert files[..|files|] == files;
    CountsAreWhole(seen, cached, unique, skipped, skippedBytes);
    assert unique == FirstSizes(seen) - cached by {
      CountedUnique(seen, cached, unique, skipped, skippedBytes);
    }
  }

  // ---- The pipeline ----

  datatype Task = Task(sha: Sha, size: nat)

  datatype TaskOutcome = Succeeded | FetchFailed | TaskPanicked

  datatype Joined = Joined(task: Task, outcome: TaskOutcome)

  /** What the next turn of the loop finds: a shutdown request, or else a task in flight that ends. */
  datatype Turn = Turn(shutdown: bool, pick: nat, outcome: TaskOutcome)

  /** Any one of `n` tasks. */
  function Pick(turn: Turn, n: nat): (k: nat)
    requires n > 0
    ensures k < n
  {
    turn.pick % n
  }

  function Tasks(joined: seq<Joined>): multiset<Task> {
    if joined == [] then multiset{} else Tasks(joined[..|joined| - 1]) + multiset{joined[|joined| - 1].task}
  }

  function Count(joined: seq<Joined>, outcome: TaskOutcome): nat {
    if joined == [] then 0
    else Count(joined[..|joined| - 1], outcome) + if joined[|joined| - 1].outcome == outcome then 1 else 0
  }

  function BytesFetched(joined: seq<Joined>): nat {
    if joined == [] then 0
    else
      var last := joined[|joined| - 1];
      BytesFetched(joined[..|joined| - 1]) + if last.outcome == Succeeded then last.task.size else 0
  }

  /** What the pipeline does, in order. */
  datatype Action = Submitted(task: Task) | Ended(joined: Joined) | ShutDown

  function SubmittedIn(log: seq<Action>): seq<Task> {
    if log == [] then []
    else
      var last := log[|log| - 1];
      SubmittedIn(log[..|log| - 1]) + if last.Submitted? then [last.task] else []
  }

  function EndedIn(log: seq<Action>): seq<Joined> {
    if log == [] then []
    else
      var last := log[|log| - 1];
      EndedIn(log[..|log| - 1]) + if last.Ended? then [last.joined] else []
  }

  /** At no time are more than `parallelism` tasks submitted and not ended. */
  ghost predicate NeverMoreThan(log: seq<Action>, parallelism: nat) {
    forall n | 0 <= n <= |log| :: |SubmittedIn(log[..n])| - |EndedIn(log[..n])| <= parallelism
  }

  ghost predicate NothingAfterShutDown(log: seq<Action>) {
    forall i, j | 0 <= i < j < |log| :: log[i].ShutDown? ==> !log[j].Submitted?
  }

  lemma Log(log: seq<Action>, a: Action)
    ensures SubmittedIn(log + [a]) == if a.Submitted? then SubmittedIn(log) + [a.task] else SubmittedIn(log)
    ensures EndedIn(log + [a]) == if a.Ended? then EndedIn(log) + [a.joined] else EndedIn(log)
  {
    assert (log + [a])[..|log|] == log;
  }

  /** What holds of the record at all times. */
  ghost predicate InOrder(log: seq<Action>, parallelism: nat, interrupted: bool) {
    NeverMoreThan(log, parallelism) && NothingAfterShutDown(log) && (interrupted <==> ShutDown in log)
  }

  /** Recording one more action. */
  lemma Note(log: seq<Action>, a: Action, parallelism: nat, interrupted: bool)
    requires InOrder(log, parallelism, interrupted)
    requires a.Submitted? ==> |SubmittedIn(log)| - |EndedIn(log)| < parallelism && !interrupted
    ensures InOrder(log + [a], parallelism, interrupted || a.ShutDown?)
    ensures SubmittedIn(log + [a]) == if a.Submitted? then SubmittedIn(log) + [a.task] else SubmittedIn(log)
    ensures EndedIn(log + [a]) == if a.Ended? then EndedIn(log) + [a.joined] else EndedIn(log)
  {
    hide SubmittedIn, EndedIn;
    Log(log, a);
    var more := log + [a];
    assert log[..|log|] == log;
    forall n | 0 <= n <= |more| ensures |SubmittedIn(more[..n])| - |EndedIn(more[..n])| <= parallelism {
      if n <= |log| {
        assert more[..n] == log[..n];
      } else {
        assert more[..n] == more;
      }
    }
    assert more[|log|] == a;
    forall i, j | 0 <= i < j < |more| && more[i].ShutDown? ensures !more[j].Submitted? {
      assert more[i] == log[i] && log[i] in log;
    }
  }

  lemma Join(joined: seq<Joined>, j: Joined)
    ensures Tasks(joined + [j]) == Tasks(joined) + multiset{j.task}
    ensures forall outcome :: Count(joined + [j], outcome) == Count(joined, outcome) + if j.outcome == outcome then 1 else 0
    ensures BytesFetched(joined + [j]) == BytesFetched(joined) + if j.outcome == Succeeded then j.task.size else 0
  {
    assert (joined + [j])[..|joined|] == joined;
  }

  function ByteValue(b: Byte): int { b }

  /** The order of the digests, byte by byte. */
  function ByDigest(): (Task, Task) -> bool {
    (a: Task, b: Task) => LexLe<Byte>(ByteValue, a.sha.digest, b.sha.digest)
  }

  lemma DigestsAreOrdered()
    ensures TotalOrder(ByDigest())
  {
    hide LexLe;
    var le := ByDigest();
    forall a: Task, b: Task ensures le(a, b) || le(b, a) {
      LexLeTotal<Byte>(ByteValue, a.sha.digest, b.sha.digest);
    }
    forall a: Task, b: Task, c: Task | le(a, b) && le(b, c) ensures le(a, c) {
      LexLeTransitive<Byte>(ByteValue, a.sha.digest, b.sha.digest, c.sha.digest);
    }
  }

  /** The map's entries, one task each, in any order. */
  method Entries(unique: map<Sha, nat>) returns (work: seq<Task>)
    ensures forall i, j | 0 <= i < j < |work| :: work[i].sha != work[j].sha
    ensures forall sha | sha in unique :: Task(sha, unique[sha]) in work
    ensures forall i | 0 <= i < |work| :: work[i].sha in unique && work[i].size == unique[work[i].sha]
  {
    work := [];
    var left := unique.Keys;
    while left != {}
      invariant left <= unique.Keys
      invariant forall i, j | 0 <= i < j < |work| :: work[i].sha != work[j].sha
      invariant forall sha | sha in unique && sha !in left :: Task(sha, unique[sha]) in work
      invariant forall i | 0 <= i < |work| ::
                  work[i].sha in unique && work[i].sha !in left && work[i].size == unique[work[i].sha]
      decreases |left|
    {
      var sha :| sha in left;
      work := work + [Task(sha, unique[sha])];
      left := left - {sha};
    }
  }

  function ShaOf(task: Task): Sha { task.sha }

  lemma ShasApart(s: seq<Task>)
    requires Apart(ShaOf, s)
    ensures forall i, j | 0 <= i < j < |s| :: s[i].sha != s[j].sha
  {
    forall i, j | 0 <= i < j < |s| ensures s[i].sha != s[j].sha {
      assert ShaOf(s[i]) != ShaOf(s[j]);
    }
  }

  /** The first byte that differs is the lower one. */
  ghost predicate DigestBelow(d: Digest, e: Digest) {
    exists k | 0 <= k < 20 :: d[..k] == e[..k] && d[k] < e[k]
  }

  lemma DigestOrder(a: Task, b: Task)
    requires ByDigest()(a, b) && a.sha != b.sha
    ensures DigestBelow(a.sha.digest, b.sha.digest)
  {
    var d, e := a.sha.digest, b.sha.digest;
    LexLeIff(ByteValue, d, e);
    var k: nat :| LowerAt(ByteValue, d, e, k);
    assert d[..20] == d && e[..20] == e;
    assert d[..k] == e[..k] && ByteValue(d[k]) < ByteValue(e[k]);
  }

  /** The order in which chunks are submitted: each chunk once, by digest. */
  method WorkList(unique: map<Sha, nat>) returns (work: seq<Task>)
    ensures forall i, j | 0 <= i < j < |work| :: work[i].sha != work[j].sha
    ensures forall i, j | 0 <= i < j < |work| :: DigestBelow(work[i].sha.digest, work[j].sha.digest)
    ensures forall sha | sha in unique :: Task(sha, unique[sha]) in work
    ensures forall i | 0 <= i < |work| :: work[i].sha in unique && work[i].size == unique[work[i].sha]
  {
    hide Sort, ByDigest, DigestBelow;
    var entries := Entries(unique);
    work := Sort(ByDigest(), entries);
    DigestsAreOrdered();
    SortSorts(ByDigest(), entries);
    SortKeeps(ByDigest(), entries);
    SortKeepsApart(ByDigest(), ShaOf, entries);
    ShasApart(work);
    forall i, j | 0 <= i < j < |work| ensures DigestBelow(work[i].sha.digest, work[j].sha.digest) {
      DigestOrder(work[i], work[j]);
    }
    forall sha | sha in unique ensures Task(sha, unique[sha]) in work {
      var k :| 0 <= k < |entries| && entries[k] == Task(sha, unique[sha]);
      assert entries[k] in work;
    }
    forall i | 0 <= i < |work| ensures work[i].sha in unique && work[i].size == unique[work[i].sha] {
      assert work[i] in entries;
    }
  }

  /** The state of the pipeline agrees with its record. */
  ghost predicate Running(work: seq<Task>, submitted: nat, inFlight: seq<Task>, log: seq<Action>, parallelism: nat,
                          interrupted: bool)
  {
    && submitted <= |work| && SubmittedIn(log) == work[..submitted]
    && |inFlight| == submitted - |EndedIn(log)| <= parallelism
    && Tasks(EndedIn(log)) + multiset(inFlight) == multiset(work[..submitted])
    && InOrder(log, parallelism, interrupted)
  }

  lemma NothingYet(parallelism: nat)
    ensures Tasks([]) == multiset{} && BytesFetched([]) == 0 && forall outcome :: Count([], outcome) == 0
    ensures SubmittedIn([]) == [] && EndedIn([]) == [] && InOrder([], parallelism, false)
  {}

  lemma Starts(work: seq<Task>, inFlight: seq<Task>, log: seq<Action>, parallelism: nat)
    requires |inFlight| <= |work| && |inFlight| <= parallelism && inFlight == work[..|inFlight|] == SubmittedIn(log)
    requires EndedIn(log) == [] && InOrder(log, parallelism, false)
    ensures Running(work, |inFlight|, inFlight, log, parallelism, false)
    ensures BytesFetched(EndedIn(log)) == Count(EndedIn(log), Succeeded) == Count(EndedIn(log), TaskPanicked) == 0
  {
    hide InOrder;
    NothingYet(parallelism);
  }

  lemma ShutsDown(work: seq<Task>, submitted: nat, inFlight: seq<Task>, log: seq<Action>, parallelism: nat)
    requires Running(work, submitted, inFlight, log, parallelism, false)
    ensures Running(work, submitted, inFlight, log + [ShutDown], parallelism, true)
    ensures EndedIn(log + [ShutDown]) == EndedIn(log)
  {
    hide SubmittedIn, EndedIn, InOrder;
    Note(log, ShutDown, parallelism, false);
  }

  /** A task that ends moves from those in flight to those that have ended. */
  lemma TakeOut(inFlight: seq<Task>, k: nat, joined: seq<Joined>, outcome: TaskOutcome, submitted: seq<Task>)
    requires k < |inFlight| && Tasks(joined) + multiset(inFlight) == multiset(submitted)
    ensures var j := joined + [Joined(inFlight[k], outcome)];
            && Tasks(j) + multiset(inFlight[..k] + inFlight[k + 1..]) == multiset(submitted)
            && (forall o :: Count(j, o) == Count(joined, o) + if outcome == o then 1 else 0)
            && BytesFetched(j) == BytesFetched(joined) + if outcome == Succeeded then inFlight[k].size else 0
  {
    hide Tasks, Count, BytesFetched;
    Join(joined, Joined(inFlight[k], outcome));
    assert inFlight == inFlight[..k] + [inFlight[k]] + inFlight[k + 1..];
  }

  lemma Ends(work: seq<Task>, submitted: nat, inFlight: seq<Task>, log: seq<Action>, parallelism: nat,
             interrupted: bool, k: nat, outcome: TaskOutcome)
    requires Running(work, submitted, inFlight, log, parallelism, interrupted) && k < |inFlight|
    ensures var log' := log + [Ended(Joined(inFlight[k], outcome))];
            && Running(work, submitted, inFlight[..k] + inFlight[k + 1..], log', parallelism, interrupted)
            && Count(EndedIn(log'), Succeeded) == Count(EndedIn(log), Succeeded) + (if outcome == Succeeded then 1 else 0)
            && Count(EndedIn(log'), TaskPanicked)
               == Count(EndedIn(log), TaskPanicked) + (if outcome == TaskPanicked then 1 else 0)
            && BytesFetched(EndedIn(log'))
               == BytesFetched(EndedIn(log)) + (if outcome == Succeeded then inFlight[k].size else 0)
  {
    hide SubmittedIn, EndedIn, InOrder, Tasks, Count, BytesFetched;
    TakeOut(inFlight, k, EndedIn(log), outcome, work[..submitted]);
    Note(log, Ended(Joined(inFlight[k], outcome)), parallelism, interrupted);
  }

  lemma Submits(work: seq<Task>, submitted: nat, inFlight: seq<Task>, log: seq<Action>, parallelism: nat)
    requires Running(work, submitted, inFlight, log, parallelism, false)
    requires submitted < |work| && |inFlight| < parallelism
    ensures var log' := log + [Submitted(work[submitted])];
            && Running(work, submitted + 1, inFlight + [work[submitted]], log', parallelism, false)
            && EndedIn(log') == EndedIn(log)
  {
    hide SubmittedIn, EndedIn, InOrder, Tasks;
    assert work[..submitted + 1] == work[..submitted] + [work[submitted]];
    Note(log, Submitted(work[submitted]), parallelism, false);
  }

  lemma Drained(work: seq<Task>, submitted: nat, log: seq<Action>, parallelism: nat, interrupted: bool)
    requires Running(work, submitted, [], log, parallelism, interrupted)
    ensures submitted <= |work| && SubmittedIn(log) == work[..submitted]
    ensures Tasks(EndedIn(log)) == multiset(work[..submitted])
    ensures NeverMoreThan(log, parallelism) && NothingAfterShutDown(log) && (interrupted <==> ShutDown in log)
  {
    hide SubmittedIn, EndedIn, Tasks, NeverMoreThan, NothingAfterShutDown;
  }

  /** Filling the pipeline at the start. */
  method Prime(work: seq<Task>, parallelism: nat) returns (inFlight: seq<Task>, ghost log: seq<Action>)
    ensures |inFlight| == Min(parallelism, |work|) && inFlight == work[..|inFlight|] == SubmittedIn(log)
    ensures EndedIn(log) == [] && InOrder(log, parallelism, false)
  {
    hide SubmittedIn, EndedIn, InOrder;
    inFlight, log := [], [];
    NothingYet(parallelism);
    for i := 0 to parallelism
      invariant |inFlight| == Min(i, |work|)
      invariant inFlight == work[..|inFlight|] == SubmittedIn(log) && EndedIn(log) == []
      invariant InOrder(log, parallelism, false)
    {
      var n := |inFlight|;
      if n < |work| {
        Note(log, Submitted(work[n]), parallelism, false);
        log := log + [Submitted(work[n])];
        inFlight := inFlight + [work[n]];
      }
    }
  }

  /** Run the work with at most `parallelism` tasks in flight, whatever the turns bring. Every
      submitted task ends exactly once and is counted by how it ended; without a shutdown work is
      left over only if every place in the pipeline was lost to a panic; after one nothing more
      is submitted. `log` records the run. */
  method Pipeline(work: seq<Task>, parallelism: nat, turns: nat -> Turn)
    returns (submitted: nat, chunksDone: nat, bytesDone: nat, interrupted: bool, ghost log: seq<Action>)
    ensures submitted <= |work| && SubmittedIn(log) == work[..submitted]
    ensures Tasks(EndedIn(log)) == multiset(work[..submitted])
    ensures chunksDone == Count(EndedIn(log), Succeeded) && bytesDone == BytesFetched(EndedIn(log))
    ensures NeverMoreThan(log, parallelism) && NothingAfterShutDown(log)
    ensures interrupted <==> ShutDown in log
    ensures !interrupted && submitted < |work| ==> Count(EndedIn(log), TaskPanicked) == parallelism
    ensures submitted >= Min(parallelism, |work|)
  {
    hide Tasks, Count, BytesFetched, SubmittedIn, EndedIn, Running, Pick, NeverMoreThan, NothingAfterShutDown;
    chunksDone, bytesDone, interrupted := 0, 0, false;
    var inFlight: seq<Task>;
    inFlight, log := Prime(work, parallelism);
    submitted := |inFlight|;
    Starts(work, inFlight, log, parallelism);
    var turn := 0;
    while true
      invariant Min(parallelism, |work|) <= submitted <= |work|
      invariant Running(work, submitted, inFlight, log, parallelism, interrupted)
      invariant chunksDone == Count(EndedIn(log), Succeeded) && bytesDone == BytesFetched(EndedIn(log))
      invariant !interrupted && submitted < |work| ==> |inFlight| + Count(EndedIn(log), TaskPanicked) == parallelism
      decreases |work| - submitted + |inFlight|, !interrupted
    {
      var now := turns(turn);
      turn := turn + 1;
      if !interrupted && now.shutdown {
        ShutsDown(work, submitted, inFlight, log, parallelism);
        log := log + [ShutDown];
        interrupted := true;
        continue;
      }
      if inFlight == [] {
        break;
      }
      var k := Pick(now, |inFlight|);
      var task := inFlight[k];
      Ends(work, submitted, inFlight, log, parallelism, interrupted, k, now.outcome);
      log := log + [Ended(Joined(task, now.outcome))];
      inFlight := inFlight[..k] + inFlight[k + 1..];
      if now.outcome == TaskPanicked {
        continue;
      }
      if now.outcome == Succeeded {
        chunksDone := chunksDone + 1;
        bytesDone := bytesDone + task.size;
      }
      if !interrupted && submitted < |work| {
        Submits(work, submitted, inFlight, log, parallelism);
        log := log + [Submitted(work[submitted])];
        inFlight := inFlight + [work[submitted]];
        submitted := submitted + 1;
      }
    }
    Drained(work, submitted, log, parallelism, interrupted);
  }

  /** Every end of a task is counted once. */
  lemma {:induction false} CountsAddUp(joined: seq<Joined>)
    ensures Count(joined, Succeeded) + Count(joined, FetchFailed) + Count(joined, TaskPanicked)
         == |joined| == |Tasks(joined)|
  {
    if joined != [] {
      CountsAddUp(joined[..|joined| - 1]);
    }
  }

  // ---- From the manifest's files to the chunks fetched ----

  predicate Sized(task: Task, sizes: map<Sha, nat>) {
    task.sha in sizes && task.size == sizes[task.sha]
  }

  /** No two tasks are for one chunk, and all are for chunks in `sizes`, with the size given there. */
  ghost predicate EachOnce(tasks: seq<Task>, sizes: map<Sha, nat>) {
    && (forall i, j | 0 <= i < j < |tasks| :: tasks[i].sha != tasks[j].sha)
    && forall i | 0 <= i < |tasks| :: Sized(tasks[i], sizes)
  }

  function Fetched(joined: seq<Joined>): set<Sha> {
    set i | 0 <= i < |joined| && joined[i].outcome == Succeeded :: joined[i].task.sha
  }

  ghost predicate AllSucceeded(joined: seq<Joined>) {
    forall i | 0 <= i < |joined| :: joined[i].outcome == Succeeded
  }

  lemma {:induction false} TaskEnded(joined: seq<Joined>, task: Task)
    ensures task in Tasks(joined) <==> exists i :: 0 <= i < |joined| && joined[i].task == task
  {
    if joined != [] {
      var n := |joined| - 1;
      TaskEnded(joined[..n], task);
      assert forall i | 0 <= i < n :: joined[..n][i] == joined[i];
      assert joined[n].task == task ==> task in Tasks(joined);
      if i :| 0 <= i < |joined| && joined[i].task == task {
        assert i < n ==> joined[..n][i].task == task;
      }
    }
  }

  lemma {:induction false} SubmittedOnce(tasks: seq<Task>, sizes: map<Sha, nat>, task: Task)
    requires EachOnce(tasks, sizes)
    ensures multiset(tasks)[task] <= 1
  {
    if tasks != [] {
      var n := |tasks| - 1;
      SubmittedOnce(tasks[..n], sizes, task);
      assert tasks == tasks[..n] + [tasks[n]];
      assert task == tasks[n] ==> task !in tasks[..n];
    }
  }

  lemma NotFetchedBefore(before: seq<Joined>, task: Task, sizes: map<Sha, nat>)
    requires Sized(task, sizes) && task !in Tasks(before)
    requires forall other | other in Tasks(before) :: Sized(other, sizes)
    ensures task.sha !in Fetched(before)
  {
    forall i | 0 <= i < |before| ensures before[i].task.sha != task.sha {
      TaskEnded(before, before[i].task);
    }
  }

  lemma FetchOne(before: seq<Joined>, last: Joined, sizes: map<Sha, nat>)
    requires Sized(last.task, sizes) && last.task.sha !in Fetched(before)
    ensures Fetched(before + [last])
         == Fetched(before) + if last.outcome == Succeeded then {last.task.sha} else {}
    ensures Sum(Within(sizes, Fetched(before + [last])))
         == Sum(Within(sizes, Fetched(before))) + if last.outcome == Succeeded then last.task.size else 0
  {
    hide Sum;
    var after, sha := before + [last], last.task.sha;
    assert forall i | 0 <= i < |before| :: after[i] == before[i];
    assert after[|before|] == last;
    if last.outcome == Succeeded {
      assert Fetched(after) == Fetched(before) + {sha};
      assert Within(sizes, Fetched(after)) == Within(sizes, Fetched(before))[sha := last.task.size];
      SumWith(Within(sizes, Fetched(before)), sha, last.task.size);
    } else {
      assert Fetched(after) == Fetched(before);
    }
  }

  ghost predicate EndedOnce(joined: seq<Joined>, sizes: map<Sha, nat>) {
    forall task | task in Tasks(joined) :: Tasks(joined)[task] == 1 && Sized(task, sizes)
  }

  lemma EndedOnceBefore(before: seq<Joined>, last: Joined, sizes: map<Sha, nat>)
    requires EndedOnce(before + [last], sizes)
    ensures EndedOnce(before, sizes) && Sized(last.task, sizes) && last.task.sha !in Fetched(before)
  {
    hide Tasks;
    Join(before, last);
    var after := Tasks(before + [last]);
    assert last.task in after;
    forall task | task in Tasks(before) ensures Tasks(before)[task] == 1 && Sized(task, sizes) {
      assert task in after;
    }
    NotFetchedBefore(before, last.task, sizes);
  }

  /** Tasks that each end once are counted as the chunks that were fetched. */
  lemma {:induction false} FetchedAddsUp(joined: seq<Joined>, sizes: map<Sha, nat>)
    requires EndedOnce(joined, sizes)
    ensures Fetched(joined) <= sizes.Keys
    ensures Count(joined, Succeeded) == |Fetched(joined)| && BytesFetched(joined) == Sum(Within(sizes, Fetched(joined)))
  {
    if joined == [] {
      assert Within(sizes, {}) == map[];
    } else {
      hide Tasks, Count, BytesFetched, Sum, Fetched, Within, EndedOnce;
      var before, last := joined[..|joined| - 1], joined[|joined| - 1];
      assert joined == before + [last];
      Join(before, last);
      EndedOnceBefore(before, last, sizes);
      FetchedAddsUp(before, sizes);
      FetchOne(before, last, sizes);
    }
  }

  /** The tasks submitted and ended, and what comes of them. */
  lemma PipelineAddsUp(work: seq<Task>, n: nat, joined: seq<Joined>, sizes: map<Sha, nat>)
    requires EachOnce(work, sizes) && n <= |work| && Tasks(joined) == multiset(work[..n])
    ensures EachOnce(work[..n], sizes) && Fetched(joined) <= sizes.Keys
    ensures Count(joined, Succeeded) == |Fetched(joined)| && BytesFetched(joined) == Sum(Within(sizes, Fetched(joined)))
  {
    hide Sum, Count, BytesFetched, Tasks, Fetched;
    forall task | task in Tasks(joined) ensures Tasks(joined)[task] == 1 && Sized(task, sizes) {
      SubmittedOnce(work[..n], sizes, task);
      assert task in work[..n];
    }
    FetchedAddsUp(joined, sizes);
  }

  ghost predicate Complete(tasks: seq<Task>, sizes: map<Sha, nat>) {
    forall sha | sha in sizes :: Task(sha, sizes[sha]) in tasks
  }

  lemma {:induction false} NoPanics(joined: seq<Joined>)
    requires AllSucceeded(joined)
    ensures Count(joined, TaskPanicked) == 0
  {
    if joined != [] {
      NoPanics(joined[..|joined| - 1]);
    }
  }

  lemma AllFetched(work: seq<Task>, n: nat, joined: seq<Joined>, sizes: map<Sha, nat>)
    requires Complete(work, sizes) && n <= |work| && Tasks(joined) == multiset(work[..n]) && AllSucceeded(joined)
    requires n < |work| ==> Count(joined, TaskPanicked) >= 1
    ensures Fetched(joined) >= sizes.Keys && Within(sizes, Fetched(joined)) == sizes
  {
    NoPanics(joined);
    assert work[..n] == work;
    forall sha | sha in sizes ensures sha in Fetched(joined) {
      assert Task(sha, sizes[sha]) in multiset(work);
      TaskEnded(joined, Task(sha, sizes[sha]));
    }
  }

  lemma NothingFetched(sizes: map<Sha, nat>, parallelism: nat)
    requires sizes == map[]
    ensures EachOnce(SubmittedIn([]), sizes) && Tasks(EndedIn([])) == multiset(SubmittedIn([]))
    ensures NeverMoreThan([], parallelism) && NothingAfterShutDown([])
    ensures Fetched(EndedIn([])) == {} && Sum(Within(sizes, {})) == 0 && Sum(sizes) == 0
    ensures Complete(SubmittedIn([]), sizes)
  {
    assert Within(sizes, {}) == map[];
  }

  /** Fetch what is missing. Every chunk of it is submitted at most once, with its size; without a
      shutdown, and with fewer panics than places in the pipeline, all are. What is counted is the
      chunks that were fetched. */
  method FetchMissing(missing: map<Sha, nat>, parallelism: nat, turns: nat -> Turn)
    returns (chunksDone: nat, bytesDone: nat, interrupted: bool, ghost log: seq<Action>)
    ensures EachOnce(SubmittedIn(log), missing) && Tasks(EndedIn(log)) == multiset(SubmittedIn(log))
    ensures NeverMoreThan(log, parallelism) && NothingAfterShutDown(log) && (interrupted <==> ShutDown in log)
    ensures !interrupted && Count(EndedIn(log), TaskPanicked) < parallelism ==> Complete(SubmittedIn(log), missing)
    ensures chunksDone == |Fetched(EndedIn(log))| && bytesDone == Sum(Within(missing, Fetched(EndedIn(log))))
    ensures Fetched(EndedIn(log)) <= missing.Keys
    ensures !interrupted && AllSucceeded(EndedIn(log)) && parallelism > 0 ==>
              Fetched(EndedIn(log)) == missing.Keys && bytesDone == Sum(missing)
  {
    hide Tasks, Count, BytesFetched, SubmittedIn, EndedIn, NeverMoreThan, NothingAfterShutDown, Sum, Fetched,
         AllSucceeded;
    if missing == map[] {
      chunksDone, bytesDone, interrupted, log := 0, 0, false, [];
      NothingFetched(missing, parallelism);
      return;
    }
    var work := WorkList(missing);
    var submitted;
    submitted, chunksDone, bytesDone, interrupted, log := Pipeline(work, parallelism, turns);
    PipelineAddsUp(work, submitted, EndedIn(log), missing);
    assert submitted == |work| ==> work[..submitted] == work;
    if !interrupted && AllSucceeded(EndedIn(log)) && parallelism > 0 {
      AllFetched(work, submitted, EndedIn(log), missing);
    }
  }

  /** Prefetch a manifest: each distinct chunk that is not cached is submitted at most once, and if
      all goes well the chunks and bytes fetched come, with those skipped, to the whole manifest. */
  method PrefetchSnapshot(files: seq<seq<ChunkRef>>, cached: set<Sha>, parallelism: nat, turns: nat -> Turn)
    returns (chunksDone: nat, bytesDone: nat, skipped: set<Sha>, skippedBytes: nat, interrupted: bool,
             ghost log: seq<Action>)
    ensures var missing := FirstSizes(AllChunks(files)) - cached;
            && EachOnce(SubmittedIn(log), missing)
            && (!interrupted && Count(EndedIn(log), TaskPanicked) < parallelism ==> Complete(SubmittedIn(log), missing))
            && chunksDone == |Fetched(EndedIn(log))|
            && bytesDone == Sum(Within(missing, Fetched(EndedIn(log))))
    ensures Tasks(EndedIn(log)) == multiset(SubmittedIn(log))
    ensures NeverMoreThan(log, parallelism) && NothingAfterShutDown(log) && (interrupted <==> ShutDown in log)
    ensures skipped == Shas(AllChunks(files)) * cached && Fetched(EndedIn(log)) !! cached
    ensures !interrupted && AllSucceeded(EndedIn(log)) && parallelism > 0 ==>
              && Fetched(EndedIn(log)) + skipped == Shas(AllChunks(files))
              && bytesDone + skippedBytes == Sum(FirstSizes(AllChunks(files)))
  {
    hide *;
    var missing;
    missing, skipped, skippedBytes := Deduplicate(files, cached);
    chunksDone, bytesDone, interrupted, log := FetchMissing(missing, parallelism, turns);
  }
}
