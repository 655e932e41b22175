/** Runs in which one call at a time is made: what they show about downloads that are repeated. */
module ChunkCacheRuns {
  import opened Prelude
  import opened Frame
  import opened ChunkNames
  import opened ChunkCache
  import opened ChunkCacheLocks
  import opened ChunkCacheOnce
  import Lru

  // ---- One call, from its start to its end ----

  /** Nobody holds a lock or a lock object. */
  ghost predicate Idle(s: State) {
    s.held == map[] && forall t | 0 <= t < |s.tasks| :: s.tasks[t].lock == None
  }

  /** The next task, alone in its load section. */
  function Inside(s: State, kind: Kind, sha: Sha, pc: Pc, store: Store): State {
    State(s.tasks + [Task(kind, sha, pc, Some(s.nextLock))], s.loading[sha := s.nextLock], s.nextLock + 1,
          map[s.nextLock := |s.tasks|], store)
  }

  /** And after it has left. */
  function After(s: State, kind: Kind, sha: Sha, out: Outcome, store: Store): State {
    State(s.tasks + [Task(kind, sha, Finished(out), None)], s.loading[sha := s.nextLock], s.nextLock + 1, map[], store)
  }

  function FailedReadAt(s: Store, kind: Kind, sha: Sha, pc: Pc, a: Answer): nat {
    if FailedRead(s, Task(kind, sha, pc, None), a) then 1 else 0
  }

  lemma RunCons(c: Codec, s: State, e: Event, rest: seq<Event>, sha: Sha)
    ensures Run(c, s, [e] + rest) == Run(c, Next(c, s, e), rest)
    ensures FailedReads(c, s, [e] + rest, sha) == FailedReadOf(s, e, sha) + FailedReads(c, Next(c, s, e), rest, sha)
  {
    hide Next, FailedReadOf;
    assert ([e] + rest)[1..] == rest;
  }

  /** Two ways to get on: the same state is reached, with so many failed reads on the way. */
  ghost predicate LeadsTo(c: Codec, s: State, events: seq<Event>, s': State, rest: seq<Event>, sha: Sha, failed: nat) {
    && Run(c, s, events) == Run(c, s', rest)
    && FailedReads(c, s, events, sha) == failed + FailedReads(c, s', rest, sha)
  }

  lemma StepInside(c: Codec, s: State, kind: Kind, sha: Sha, pc: Pc, store: Store, a: Answer, pc': Pc, store': Store,
                   rest: seq<Event>)
    requires !MovesLocks(pc) && Work(c, store, Task(kind, sha, pc, Some(s.nextLock)), a) == (store', pc')
    ensures LeadsTo(c, Inside(s, kind, sha, pc, store), [Step(|s.tasks|, a)] + rest,
                    Inside(s, kind, sha, pc', store'), rest, sha, FailedReadAt(store, kind, sha, pc, a))
  {
    hide Work;
    var before, e := Inside(s, kind, sha, pc, store), Step(|s.tasks|, a);
    RunCons(c, before, e, rest, sha);
    assert Next(c, before, e) == Inside(s, kind, sha, pc', store');
  }

  /** From the first check, which finds nothing, into the load section. */
  function Enter(t: nat, kind: Kind, sha: Sha, a: Answer, rest: seq<Event>): seq<Event> {
    [Spawn(kind, sha)] + ([Step(t, a)] + ([Step(t, Fine)] + ([Step(t, Fine)] + rest)))
  }

  lemma NobodyAlive(s: State)
    requires forall t | 0 <= t < |s.tasks| :: s.tasks[t].lock == None
    ensures forall lock :: !Live(s, lock)
  {}

  lemma TakesLock(c: Codec, s: State, kind: Kind, sha: Sha, rest: seq<Event>)
    requires Idle(s)
    ensures var t := |s.tasks|;
            LeadsTo(c, s.(tasks := s.tasks + [Task(kind, sha, NeedLock, None)]),
                    [Step(t, Fine)] + ([Step(t, Fine)] + rest), Inside(s, kind, sha, Recheck, s.store), rest, sha, 0)
  {
    hide Work, Run, FailedReads;
    var t := |s.tasks|;
    var s2 := s.(tasks := s.tasks + [Task(kind, sha, NeedLock, None)]);
    var s3 := s.(tasks := s.tasks + [Task(kind, sha, Waiting, Some(s.nextLock))],
                 loading := s.loading[sha := s.nextLock], nextLock := s.nextLock + 1);
    NobodyAlive(s2);
    assert Next(c, s2, Step(t, Fine)) == s3;
    assert Next(c, s3, Step(t, Fine)) == Inside(s, kind, sha, Recheck, s.store);
    hide Next;
    RunCons(c, s3, Step(t, Fine), rest, sha);
    RunCons(c, s2, Step(t, Fine), [Step(t, Fine)] + rest, sha);
  }

  lemma Enters(c: Codec, s: State, kind: Kind, sha: Sha, a: Answer, rest: seq<Event>)
    requires Idle(s) && Check(s.store, Task(kind, sha, Start, None), a) == (s.store, NeedLock)
    ensures LeadsTo(c, s, Enter(|s.tasks|, kind, sha, a, rest), Inside(s, kind, sha, Recheck, s.store), rest, sha, 0)
  {
    hide Check, Run, FailedReads;
    var t := |s.tasks|;
    var s1 := s.(tasks := s.tasks + [Task(kind, sha, Start, None)]);
    var s2 := s.(tasks := s.tasks + [Task(kind, sha, NeedLock, None)]);
    assert Next(c, s, Spawn(kind, sha)) == s1;
    assert Next(c, s1, Step(t, a)) == s2;
    TakesLock(c, s, kind, sha, rest);
    hide Next;
    RunCons(c, s1, Step(t, a), [Step(t, Fine)] + ([Step(t, Fine)] + rest), sha);
    RunCons(c, s, Spawn(kind, sha), [Step(t, a)] + ([Step(t, Fine)] + ([Step(t, Fine)] + rest)), sha);
  }

  /** A fetch that brings the chunk, and everything up to the rename. */
  function Download(t: nat, plain: Buffer, rest: seq<Event>): seq<Event> {
    [Step(t, Fetched(plain))] + ([Step(t, Fine)] + ([Step(t, Fine)] + ([Step(t, Fine)] + ([Step(t, Fine)] + rest))))
  }

  function WithTemp(s: Store, sha: Sha, content: Bytes): Store {
    s.(writes := s.writes + 1, disk := s.disk[Temp(sha, s.writes) := content])
  }

  function Downloaded(c: Codec, s: Store, plain: Buffer): Store {
    var sha := c.sha1(plain);
    Rename(WithTemp(s, sha, EncodeFrameAs(c, plain, sha)), sha, Temp(sha, s.writes))
  }

  lemma WorkTowardsTemp(c: Codec, s: Store, k: Task, plain: Buffer)
    requires c.sha1(plain) == k.sha
    ensures Work(c, s, k.(pc := Fetch), Fetched(plain)) == (s, NameTemp(plain))
    ensures Work(c, s, k.(pc := NameTemp(plain)), Fine) == (s.(writes := s.writes + 1), CreateTemp(plain, s.writes))
    ensures Work(c, s.(writes := s.writes + 1), k.(pc := CreateTemp(plain, s.writes)), Fine)
         == (WithTemp(s, k.sha, []), WriteTemp(plain, s.writes, 0))
  {
    hide EncodeFrameAs, DecodeFrame, Lawful, Lru.Put, Lru.Promote;
  }

  lemma WorkWritesAndPublishes(c: Codec, s: Store, k: Task, plain: Buffer)
    requires c.sha1(plain) == k.sha
    ensures var frame := EncodeFrameAs(c, plain, k.sha);
            && Work(c, WithTemp(s, k.sha, []), k.(pc := WriteTemp(plain, s.writes, 0)), Fine)
               == (WithTemp(s, k.sha, frame), Publish(plain, s.writes))
            && Work(c, WithTemp(s, k.sha, frame), k.(pc := Publish(plain, s.writes)), Fine)
               == (Downloaded(c, s, plain), Remember(plain))
  {
    hide EncodeFrameAs, DecodeFrame, Lawful, Lru.Put, Lru.Promote;
    var frame := EncodeFrameAs(c, plain, k.sha);
    assert WriteEnd(frame, 0, Fine) == |frame|;
    assert [] + frame[0..|frame|] == frame;
    assert WithTemp(s, k.sha, []).disk[Temp(k.sha, s.writes) := frame] == WithTemp(s, k.sha, frame).disk;
  }

  lemma Downloads(c: Codec, s: State, kind: Kind, plain: Buffer, store: Store, rest: seq<Event>)
    ensures var sha := c.sha1(plain);
            LeadsTo(c, Inside(s, kind, sha, Fetch, store), Download(|s.tasks|, plain, rest),
                    Inside(s, kind, sha, Remember(plain), Downloaded(c, store, plain)), rest, sha, 0)
  {
    hide Work, Run, FailedReads, EncodeFrameAs, Downloaded, WithTemp, Inside;
    var sha, t := c.sha1(plain), |s.tasks|;
    var k, n := Task(kind, sha, Fetch, Some(s.nextLock)), store.writes;
    var tick := [Step(t, Fine)];
    var frame := EncodeFrameAs(c, plain, sha);
    WorkTowardsTemp(c, store, k, plain);
    WorkWritesAndPublishes(c, store, k, plain);
    StepInside(c, s, kind, sha, Fetch, store, Fetched(plain), NameTemp(plain), store,
               tick + (tick + (tick + (tick + rest))));
    StepInside(c, s, kind, sha, NameTemp(plain), store, Fine, CreateTemp(plain, n), store.(writes := n + 1),
               tick + (tick + (tick + rest)));
    StepInside(c, s, kind, sha, CreateTemp(plain, n), store.(writes := n + 1), Fine,
               WriteTemp(plain, n, 0), WithTemp(store, sha, []), tick + (tick + rest));
    StepInside(c, s, kind, sha, WriteTemp(plain, n, 0), WithTemp(store, sha, []), Fine,
               Publish(plain, n), WithTemp(store, sha, frame), tick + rest);
    StepInside(c, s, kind, sha, Publish(plain, n), WithTemp(store, sha, frame), Fine,
               Remember(plain), Downloaded(c, store, plain), rest);
  }

  /** Remembering the chunk, and letting go of the lock and the lock object. */
  function WindUp(t: nat, rest: seq<Event>): seq<Event> {
    [Step(t, Fine)] + ([Step(t, Fine)] + ([Step(t, Fine)] + rest))
  }

  lemma Leaves(c: Codec, s: State, kind: Kind, sha: Sha, plain: Buffer, store: Store, rest: seq<Event>)
    requires Idle(s)
    ensures LeadsTo(c, Inside(s, kind, sha, Remember(plain), store), WindUp(|s.tasks|, rest),
                    After(s, kind, sha, ChunkCache.Result(kind, plain), CacheDecoded(store, sha, plain)), rest, sha, 0)
    ensures Idle(After(s, kind, sha, ChunkCache.Result(kind, plain), CacheDecoded(store, sha, plain)))
  {
    hide Run, FailedReads, CacheDecoded, ChunkCache.Result, EncodeFrameAs, DecodeFrame, Lawful, Live, ChunkLock;
    var t, out, stored := |s.tasks|, ChunkCache.Result(kind, plain), CacheDecoded(store, sha, plain);
    var unlocking := Inside(s, kind, sha, Unlock(out), stored);
    var after := After(s, kind, sha, out, stored);
    var dropping := after.(tasks := s.tasks + [Task(kind, sha, DropLock(out), Some(s.nextLock))]);
    StepInside(c, s, kind, sha, Remember(plain), store, Fine, Unlock(out), stored,
               [Step(t, Fine)] + ([Step(t, Fine)] + rest));
    assert Next(c, unlocking, Step(t, Fine)) == dropping;
    assert Next(c, dropping, Step(t, Fine)) == after;
    hide Next;
    RunCons(c, unlocking, Step(t, Fine), [Step(t, Fine)] + rest, sha);
    RunCons(c, dropping, Step(t, Fine), rest, sha);
  }

  // ---- The price of failed reads ----

  /** An `ensure` that does not get to see the file, if there is one. */
  function EnsureRun(t: nat, plain: Buffer, sha: Sha, a: Answer, rest: seq<Event>): seq<Event> {
    Enter(t, Ensure, sha, a, [Step(t, a)] + Download(t, plain, WindUp(t, rest)))
  }

  function EnsuredAgain(c: Codec, s: State, plain: Buffer): State {
    var sha := c.sha1(plain);
    After(s, Ensure, sha, Ensured, CacheDecoded(Downloaded(c, s.store, plain), sha, plain))
  }

  lemma RechecksInVain(c: Codec, s: Store, sha: Sha, lock: nat, a: Answer)
    requires !Exists(s, sha, a)
    ensures Work(c, s, Task(Ensure, sha, Recheck, Some(lock)), a) == (s, Fetch)
  {}

  lemma CountsDownload(c: Codec, s: State, plain: Buffer)
    ensures var sha := c.sha1(plain);
            && EnsuredAgain(c, s, plain).store.persisted[sha] == s.store.persisted[sha] + 1
            && Chunk(sha) in EnsuredAgain(c, s, plain).store.disk
  {
    hide EncodeFrameAs;
  }

  lemma EnsureDownloads(c: Codec, s: State, plain: Buffer, a: Answer, rest: seq<Event>)
    requires Idle(s) && a == (if Chunk(c.sha1(plain)) in s.store.disk then Unreadable else Fine)
    ensures var sha, s' := c.sha1(plain), EnsuredAgain(c, s, plain);
            && LeadsTo(c, s, EnsureRun(|s.tasks|, plain, sha, a, rest), s', rest, sha, if a.Unreadable? then 1 else 0)
            && Idle(s') && s'.store.persisted[sha] == s.store.persisted[sha] + 1 && Chunk(sha) in s'.store.disk
  {
    hide Run, FailedReads, CacheDecoded, EncodeFrameAs, Work, Idle, Inside, After;
    var sha, t := c.sha1(plain), |s.tasks|;
    var leave := WindUp(t, rest);
    Enters(c, s, Ensure, sha, a, [Step(t, a)] + Download(t, plain, leave));
    RechecksInVain(c, s.store, sha, s.nextLock, a);
    StepInside(c, s, Ensure, sha, Recheck, s.store, a, Fetch, s.store, Download(t, plain, leave));
    Downloads(c, s, Ensure, plain, s.store, leave);
    Leaves(c, s, Ensure, sha, plain, Downloaded(c, s.store, plain), rest);
    CountsDownload(c, s, plain);
  }

  lemma QuietRun(t: nat, plain: Buffer, sha: Sha, a: Answer, rest: seq<Event>)
    requires |plain| <= 67_108_864 && !a.Fetched? && Quiet(rest)
    ensures Quiet(EnsureRun(t, plain, sha, a, rest))
  {
    var leave := WindUp(t, rest);
    assert Quiet(leave);
    assert Quiet(Download(t, plain, leave));
    assert Quiet([Step(t, a)] + Download(t, plain, leave));
  }

  lemma NothingHappens(c: Codec, s: State, sha: Sha)
    ensures Run(c, s, []) == s && FailedReads(c, s, [], sha) == 0 && Quiet([])
  {
    hide Next;
  }

  /** Any number of `ensure`s whose `stat`s fail. */
  lemma {:induction false} Repeats(c: Codec, s: State, plain: Buffer, n: nat) returns (events: seq<Event>)
    requires Idle(s) && Chunk(c.sha1(plain)) in s.store.disk && |plain| <= 67_108_864
    ensures Quiet(events)
    ensures Run(c, s, events).store.persisted[c.sha1(plain)] == s.store.persisted[c.sha1(plain)] + n
    ensures FailedReads(c, s, events, c.sha1(plain)) == n
    decreases n
  {
    hide Run, FailedReads, EnsuredAgain, EnsureRun, Idle, Quiet;
    var sha := c.sha1(plain);
    if n == 0 {
      events := [];
      NothingHappens(c, s, sha);
    } else {
      EnsureDownloads(c, s, plain, Unreadable, []);
      var rest := Repeats(c, EnsuredAgain(c, s, plain), plain, n - 1);
      events := EnsureRun(|s.tasks|, plain, sha, Unreadable, rest);
      EnsureDownloads(c, s, plain, Unreadable, rest);
      QuietRun(|s.tasks|, plain, sha, Unreadable, rest);
    }
  }

  /** The bound on downloads is attained: with n reads under the lock failing, a chunk can be
      stored n + 1 times. */
  lemma EveryFailedReadCanCost(c: Codec, plain: Buffer, n: nat) returns (events: seq<Event>)
    requires |plain| <= 67_108_864
    ensures Quiet(events)
    ensures FailedReads(c, Init(map[]), events, c.sha1(plain)) == n
    ensures Run(c, Init(map[]), events).store.persisted[c.sha1(plain)] == n + 1
  {
    hide Run, FailedReads, EnsuredAgain, EnsureRun;
    var sha, s := c.sha1(plain), Init(map[]);
    EnsureDownloads(c, s, plain, Fine, []);
    var rest := Repeats(c, EnsuredAgain(c, s, plain), plain, n);
    events := EnsureRun(0, plain, sha, Fine, rest);
    EnsureDownloads(c, s, plain, Fine, rest);
    QuietRun(0, plain, sha, Fine, rest);
  }

  /** Two `ensure`s, the `stat`s of the second failing: two downloads. */
  lemma FailedStatDownloadsAgain(c: Codec, plain: Buffer) returns (events: seq<Event>)
    requires |plain| <= 67_108_864
    ensures Quiet(events)
    ensures FailedReads(c, Init(map[]), events, c.sha1(plain)) == 1
    ensures Run(c, Init(map[]), events).store.persisted[c.sha1(plain)] == 2
  {
    events := EveryFailedReadCanCost(c, plain, 1);
  }

  // ---- A cold start over a stored chunk ----

  /** No undisturbed run over this directory downloads the chunk. */
  ghost predicate NeverStoredAgain(c: Codec, disk: map<Path, Bytes>, sha: Sha) {
    forall events | AllUndisturbed(events) :: Run(c, Init(disk), events).store.persisted[sha] == 0
  }

  lemma ModerateChunkIsKept(c: Codec, disk: map<Path, Bytes>, plain: Buffer)
    requires |plain| <= 67_108_864
    requires Chunk(c.sha1(plain)) in disk && disk[Chunk(c.sha1(plain))] == EncodeFrame(c, plain)
    ensures NeverStoredAgain(c, disk, c.sha1(plain))
  {
    var sha := c.sha1(plain);
    RoundTripIff(c, plain);
    forall events | AllUndisturbed(events)
      ensures Run(c, Init(disk), events).store.persisted[sha] == 0
    {
      StaysSettledThroughout(c, Init(disk), events, sha);
    }
  }

  /** A cold `get` that finds a file which does not decode, throws it away and downloads. */
  function Refetch(plain: Buffer, sha: Sha): seq<Event> {
    Enter(0, Get, sha, Fine, [Step(0, Fine)] + ([Step(0, Fine)] + ([Step(0, Fine)] + Download(0, plain, []))))
  }

  lemma WorkDiscards(c: Codec, s: Store, sha: Sha)
    requires Chunk(sha) in s.disk && DecodeFrame(c, s.disk[Chunk(sha)]) == None && sha !in s.decoded.values
    ensures Work(c, s, Task(Get, sha, Recheck, Some(0)), Fine) == (s, ReadDisk)
    ensures Work(c, s, Task(Get, sha, ReadDisk, Some(0)), Fine) == (s, Discard)
    ensures Work(c, s, Task(Get, sha, Discard, Some(0)), Fine) == (s.(disk := s.disk - {Chunk(sha)}), Fetch)
  {
    hide EncodeFrameAs, DecodeFrame, Lawful, Lru.Put, Lru.Promote;
  }

  lemma RefetchDownloads(c: Codec, disk: map<Path, Bytes>, plain: Buffer)
    requires Chunk(c.sha1(plain)) in disk && DecodeFrame(c, disk[Chunk(c.sha1(plain))]) == None
    ensures Run(c, Init(disk), Refetch(plain, c.sha1(plain))).store.persisted[c.sha1(plain)] == 1
  {
    hide Run, FailedReads, EncodeFrameAs, DecodeFrame, Work, Lawful, Next;
    var sha, s := c.sha1(plain), Init(disk);
    var emptied := s.store.(disk := disk - {Chunk(sha)});
    var download := Download(0, plain, []);
    Enters(c, s, Get, sha, Fine, [Step(0, Fine)] + ([Step(0, Fine)] + ([Step(0, Fine)] + download)));
    WorkDiscards(c, s.store, sha);
    StepInside(c, s, Get, sha, Recheck, s.store, Fine, ReadDisk, s.store, [Step(0, Fine)] + ([Step(0, Fine)] + download));
    StepInside(c, s, Get, sha, ReadDisk, s.store, Fine, Discard, s.store, [Step(0, Fine)] + download);
    StepInside(c, s, Get, sha, Discard, s.store, Fine, Fetch, emptied, download);
    Downloads(c, s, Get, plain, emptied, []);
    NothingHappens(c, Inside(s, Get, sha, Remember(plain), Downloaded(c, emptied, plain)), sha);
  }

  /** A file that is damaged from outside, to one that does not decode, is downloaded again by the next
      cold `get`. */
  lemma DamagedFileIsRefetched(c: Codec, disk: map<Path, Bytes>, junk: Bytes, plain: Buffer)
    requires DecodeFrame(c, junk) == None
    ensures var sha := c.sha1(plain);
            Run(c, Init(disk), [Replace(sha, junk)] + Refetch(plain, sha)).store.persisted[sha] == 1
  {
    hide DecodeFrame, Refetch;
    var sha := c.sha1(plain);
    var damaged := disk[Chunk(sha) := junk];
    assert Next(c, Init(disk), Replace(sha, junk)) == Init(damaged);
    hide Next, Run;
    RunCons(c, Init(disk), Replace(sha, junk), Refetch(plain, sha), sha);
    RefetchDownloads(c, damaged, plain);
  }

  /** A file that is removed from outside is downloaded again by the next `ensure`. */
  lemma RemovedFileIsRefetched(c: Codec, disk: map<Path, Bytes>, plain: Buffer)
    ensures var sha := c.sha1(plain);
            var events := [Remove(Chunk(sha))] + EnsureRun(0, plain, sha, Fine, []);
            Run(c, Init(disk), events).store.persisted[sha] == 1
  {
    hide EnsureRun, EnsuredAgain;
    var sha := c.sha1(plain);
    var emptied := disk - {Chunk(sha)};
    assert Next(c, Init(disk), Remove(Chunk(sha))) == Init(emptied);
    hide Next, Run, FailedReads;
    RunCons(c, Init(disk), Remove(Chunk(sha)), EnsureRun(0, plain, sha, Fine, []), sha);
    EnsureDownloads(c, Init(emptied), plain, Fine, []);
    NothingHappens(c, EnsuredAgain(c, Init(emptied), plain), sha);
  }

  lemma RefetchIsUndisturbed(plain: Buffer, sha: Sha)
    ensures AllUndisturbed(Refetch(plain, sha))
  {
    var download := Download(0, plain, []);
    assert AllUndisturbed(download);
    assert AllUndisturbed([Step(0, Fine)] + ([Step(0, Fine)] + ([Step(0, Fine)] + download)));
  }

  /** A chunk stored by an earlier process, among whatever other files, is never downloaded again
      if and only if it is within the frame cap; a larger one is thrown away and downloaded by
      the next cold reader. */
  lemma StoredChunkIsKeptIff(c: Codec, disk: map<Path, Bytes>, plain: Buffer)
    requires Chunk(c.sha1(plain)) in disk && disk[Chunk(c.sha1(plain))] == EncodeFrame(c, plain)
    ensures NeverStoredAgain(c, disk, c.sha1(plain)) <==> |plain| <= 67_108_864
  {
    if |plain| <= 67_108_864 {
      hide NeverStoredAgain, EncodeFrame;
      ModerateChunkIsKept(c, disk, plain);
    } else {
      hide EncodeFrame, DecodeFrame, Run, Next;
      OversizedDoesNotDecode(c, plain);
      RefetchDownloads(c, disk, plain);
      RefetchIsUndisturbed(plain, c.sha1(plain));
    }
  }
}
