/** A chunk is downloaded and stored at most once per run. */
module ChunkCacheOnce {
  import opened Prelude
  import opened Frame
  import opened ChunkNames
  import opened ChunkCache
  import opened ChunkCacheLocks
  import opened ChunkCacheFiles
  import Lru

  /** Nobody outside touches chunk files. Everything else may go wrong: fetches, file creation,
      writes, deletions and renames may fail, and so may reads and `stat`s. */
  predicate Untouched(e: Event) {
    match e
    case Spawn(_, _) => true
    case Step(_, _) => true
    case Remove(path) => path.Temp?
    case Replace(_, _) => false
  }

  /** In addition, reads and `stat`s of existing files succeed. */
  predicate Undisturbed(e: Event) {
    Untouched(e) && (e.Step? ==> !e.answer.Unreadable?)
  }

  ghost predicate AllUndisturbed(events: seq<Event>) {
    forall e | e in events :: Undisturbed(e)
  }

  predicate Moderate(e: Event) {
    e.Step? && e.answer.Fetched? ==> |e.answer.bytes| <= 67_108_864
  }

  /** Nobody else changes chunk files, and chunks are of moderate size. */
  ghost predicate Quiet(events: seq<Event>) {
    forall e | e in events :: Untouched(e) && Moderate(e)
  }

  lemma QuietTail(events: seq<Event>)
    requires Quiet(events) && events != []
    ensures Untouched(events[0]) && Moderate(events[0]) && Quiet(events[1..])
  {
    hide Untouched, Moderate;
    assert events[0] in events;
    assert forall e | e in events[1..] :: e in events;
  }

  /** The file of `sha` decodes and claims to be `sha`. */
  predicate GoodFile(c: Codec, s: Store, sha: Sha) {
    Chunk(sha) in s.disk &&
    match DecodeFrame(c, s.disk[Chunk(sha)])
    case Some((claimed, _)) => claimed == sha
    case None => false
  }

  /** Set on deleting or writing the chunk file. */
  predicate Committed(pc: Pc) {
    pc.Discard? || pc.Fetch? || pc.NameTemp? || pc.CreateTemp? || pc.WriteTemp? || pc.Publish?
  }

  ghost predicate Settled(c: Codec, s: State, sha: Sha) {
    && GoodFile(c, s.store, sha)
    && (forall t | 0 <= t < |s.tasks| && s.tasks[t].sha == sha :: !Committed(s.tasks[t].pc))
  }

  /** With a good file in place, a step of a task of that chunk changes no file and commits to
      nothing. */
  lemma WorkLeavesGoodFile(c: Codec, s: Store, k: Task, a: Answer)
    requires GoodFile(c, s, k.sha) && !Committed(k.pc) && !a.Unreadable?
    ensures var (s', pc) := Work(c, s, k, a);
            !Committed(pc) && s'.disk == s.disk && s'.persisted == s.persisted
  {
    hide EncodeFrameAs, DecodeFrame, Lru.Put, Lru.Promote, Lawful;
  }

  lemma WorkLeavesOtherFiles(c: Codec, s: Store, k: Task, a: Answer, sha: Sha)
    requires sha != k.sha
    ensures var s' := Work(c, s, k, a).0;
            && (Chunk(sha) in s'.disk <==> Chunk(sha) in s.disk)
            && (Chunk(sha) in s.disk ==> s'.disk[Chunk(sha)] == s.disk[Chunk(sha)])
  {
    hide EncodeFrameAs, DecodeFrame, Lru.Put, Lru.Promote, Lru.Lookup, Lawful, WriteEnd;
  }

  lemma WorkCountsOwnChunk(c: Codec, s: Store, k: Task, a: Answer)
    ensures Work(c, s, k, a).0.persisted == s.persisted
            || Work(c, s, k, a).0.persisted == s.persisted + multiset{k.sha}
  {
    hide EncodeFrameAs, DecodeFrame, Lru.Put, Lru.Promote, Lru.Lookup, Lawful, WriteEnd;
  }

  lemma WorkLeavesOtherChunks(c: Codec, s: Store, k: Task, a: Answer, sha: Sha)
    requires sha != k.sha
    ensures var s' := Work(c, s, k, a).0;
            && (Chunk(sha) in s'.disk <==> Chunk(sha) in s.disk)
            && (Chunk(sha) in s.disk ==> s'.disk[Chunk(sha)] == s.disk[Chunk(sha)])
            && s'.persisted[sha] == s.persisted[sha]
  {
    hide Work;
    WorkLeavesOtherFiles(c, s, k, a, sha);
    WorkCountsOwnChunk(c, s, k, a);
  }

  lemma SameFileIsGood(c: Codec, s: Store, s': Store, sha: Sha)
    requires Chunk(sha) in s'.disk <==> Chunk(sha) in s.disk
    requires Chunk(sha) in s.disk ==> s'.disk[Chunk(sha)] == s.disk[Chunk(sha)]
    ensures GoodFile(c, s', sha) == GoodFile(c, s, sha)
  {}

  lemma AdvanceStaysSettled(c: Codec, s: State, t: nat, a: Answer, sha: Sha)
    requires Settled(c, s, sha) && t < |s.tasks| && !a.Unreadable?
    ensures var s' := Advance(c, s, t, a);
            Settled(c, s', sha) && s'.store.persisted[sha] == s.store.persisted[sha]
  {
    hide Work, GoodFile;
    var s', k := Advance(c, s, t, a), s.tasks[t];
    if k.sha == sha {
      WorkLeavesGoodFile(c, s.store, k, a);
    } else {
      WorkLeavesOtherChunks(c, s.store, k, a, sha);
    }
    SameFileIsGood(c, s.store, s'.store, sha);
    forall u | 0 <= u < |s'.tasks| && s'.tasks[u].sha == sha ensures !Committed(s'.tasks[u].pc) {
      assert u != t ==> s'.tasks[u] == s.tasks[u];
    }
  }

  lemma StaysSettled(c: Codec, s: State, e: Event, sha: Sha)
    requires Settled(c, s, sha) && Undisturbed(e)
    ensures var s' := Next(c, s, e);
            Settled(c, s', sha) && s'.store.persisted[sha] == s.store.persisted[sha]
  {
    hide Advance, GoodFile;
    if e.Step? && e.task < |s.tasks| {
      AdvanceStaysSettled(c, s, e.task, e.answer, sha);
    } else {
      SameFileIsGood(c, s.store, Next(c, s, e).store, sha);
    }
  }

  lemma {:induction false} StaysSettledThroughout(c: Codec, s: State, events: seq<Event>, sha: Sha)
    requires Settled(c, s, sha)
    requires AllUndisturbed(events)
    ensures var s' := Run(c, s, events);
            Settled(c, s', sha) && s'.store.persisted[sha] == s.store.persisted[sha]
    decreases |events|
  {
    if events != [] {
      hide Next, Settled;
      StaysSettled(c, s, events[0], sha);
      StaysSettledThroughout(c, Next(c, s, events[0]), events[1..], sha);
    }
  }

  // ---- How often a chunk is downloaded and stored ----

  predicate ModeratePlain(pc: Pc) {
    match pc
    case NameTemp(plain) => |plain| <= 67_108_864
    case CreateTemp(plain, _) => |plain| <= 67_108_864
    case WriteTemp(plain, _, _) => |plain| <= 67_108_864
    case Publish(plain, _) => |plain| <= 67_108_864
    case _ => true
  }

  ghost predicate AllPlainsModerate(s: State) {
    forall t | 0 <= t < |s.tasks| :: ModeratePlain(s.tasks[t].pc)
  }

  lemma WorkStaysModerate(c: Codec, s: Store, k: Task, a: Answer)
    requires ModeratePlain(k.pc) && (a.Fetched? ==> |a.bytes| <= 67_108_864)
    ensures ModeratePlain(Work(c, s, k, a).1)
  {
    hide EncodeFrameAs, DecodeFrame, Lru.Put, Lru.Promote, Lawful;
  }

  /** The only step that completes a download is the rename, and it leaves a good file. */
  lemma WorkPersistsGoodFile(c: Codec, s: Store, k: Task, a: Answer)
    requires WriterOk(c, s, k) && ModeratePlain(k.pc)
    ensures var (s', pc) := Work(c, s, k, a);
            || s'.persisted == s.persisted
            || (k.pc.Publish? && s'.persisted == s.persisted + multiset{k.sha}
                && GoodFile(c, s', k.sha) && !Committed(pc))
  {
    hide DecodeFrame, Lru.Put, Lru.Promote, Lawful;
    if k.pc.Publish? {
      RoundTripIff(c, k.pc.plain);
      assert EncodeFrameAs(c, k.pc.plain, k.sha) == EncodeFrame(c, k.pc.plain);
    }
  }

  lemma PublishSettles(c: Codec, s: State, t: nat, a: Answer)
    requires LocksOk(s) && WritersOk(c, s) && t < |s.tasks|
    requires ModeratePlain(s.tasks[t].pc)
    ensures var s', sha := Advance(c, s, t, a), s.tasks[t].sha;
            || s'.store.persisted == s.store.persisted
            || (Committed(s.tasks[t].pc) && Settled(c, s', sha)
                && s'.store.persisted == s.store.persisted + multiset{sha})
  {
    hide Work, GoodFile;
    var s', k := Advance(c, s, t, a), s.tasks[t];
    assert WriterOk(c, s.store, k);
    WorkPersistsGoodFile(c, s.store, k, a);
    if s'.store.persisted != s.store.persisted {
      forall u | 0 <= u < |s'.tasks| && s'.tasks[u].sha == k.sha ensures !Committed(s'.tasks[u].pc) {
        assert TaskLockOk(s, t) && TaskLockOk(s, u);
      }
    }
  }

  lemma NextStaysModerate(c: Codec, s: State, e: Event)
    requires AllPlainsModerate(s) && Moderate(e)
    ensures AllPlainsModerate(Next(c, s, e))
  {
    hide Work;
    if e.Step? && e.task < |s.tasks| {
      WorkStaysModerate(c, s.store, s.tasks[e.task], e.answer);
    }
  }

  /** The file is good, and nobody is about to delete it. */
  ghost predicate Kept(c: Codec, s: State, sha: Sha) {
    && GoodFile(c, s.store, sha)
    && (forall t | 0 <= t < |s.tasks| && s.tasks[t].sha == sha :: !s.tasks[t].pc.Discard?)
  }

  lemma WorkDiscardsOnlyBadFiles(c: Codec, s: Store, k: Task, a: Answer)
    requires GoodFile(c, s, k.sha) && !k.pc.Discard?
    ensures var (s', pc) := Work(c, s, k, a);
            !pc.Discard? && (s'.persisted == s.persisted ==> GoodFile(c, s', k.sha))
  {
    hide EncodeFrameAs, DecodeFrame, Lru.Put, Lru.Promote, Lawful;
    assert (s.persisted + multiset{k.sha})[k.sha] == s.persisted[k.sha] + 1;
  }

  /** A good file stays good: it is never thrown away, and replaced only by a good one. */
  lemma WorkKeepsGoodFile(c: Codec, s: Store, k: Task, a: Answer)
    requires GoodFile(c, s, k.sha) && !k.pc.Discard? && WriterOk(c, s, k) && ModeratePlain(k.pc)
    ensures GoodFile(c, Work(c, s, k, a).0, k.sha) && !Work(c, s, k, a).1.Discard?
  {
    hide Work, GoodFile, WriterOk, ModeratePlain;
    WorkPersistsGoodFile(c, s, k, a);
    WorkDiscardsOnlyBadFiles(c, s, k, a);
  }

  /** Only storing it makes a chunk's file good. */
  lemma WorkMakesNoGoodFile(c: Codec, s: Store, k: Task, a: Answer)
    requires !GoodFile(c, s, k.sha) && Work(c, s, k, a).0.persisted == s.persisted
    ensures !GoodFile(c, Work(c, s, k, a).0, k.sha)
  {
    hide EncodeFrameAs, DecodeFrame, Lru.Put, Lru.Promote, Lawful;
    assert s.persisted + multiset{k.sha} != s.persisted by {
      assert (s.persisted + multiset{k.sha})[k.sha] == s.persisted[k.sha] + 1;
    }
  }

  ghost predicate SomeoneCommitted(s: State, sha: Sha) {
    exists t :: 0 <= t < |s.tasks| && s.tasks[t].sha == sha && Committed(s.tasks[t].pc)
  }

  /** The chunk's file is there, but reading it under the lock fails, or the `stat` of an `ensure` does. */
  predicate FailedRead(s: Store, k: Task, a: Answer) {
    Chunk(k.sha) in s.disk && ((k.pc.Recheck? && k.kind.Ensure?) || k.pc.ReadDisk?) && a.Unreadable?
  }

  function FailedReadOf(s: State, e: Event, sha: Sha): nat {
    if e.Step? && e.task < |s.tasks| && s.tasks[e.task].sha == sha && FailedRead(s.store, s.tasks[e.task], e.answer)
    then 1 else 0
  }

  /** How often, over a run, the file of `sha` could not be read under the lock. */
  function FailedReads(c: Codec, s: State, events: seq<Event>, sha: Sha): nat
    decreases |events|
  {
    if events == [] then 0
    else FailedReadOf(s, events[0], sha) + FailedReads(c, Next(c, s, events[0]), events[1..], sha)
  }

  /** Completed downloads are within `budget`, counting the one a committed task may complete. */
  ghost predicate Bounded(c: Codec, s: State, sha: Sha, budget: nat) {
    if GoodFile(c, s.store, sha) then
      Kept(c, s, sha) && s.store.persisted[sha] + (if SomeoneCommitted(s, sha) then 1 else 0) <= budget
    else
      s.store.persisted[sha] == 0 && budget >= 1
  }

  /** With a good file in place, only a failed read under the lock commits a task to a download. */
  lemma WorkCommits(c: Codec, s: Store, k: Task, a: Answer)
    requires GoodFile(c, s, k.sha) && !Committed(k.pc) && Committed(Work(c, s, k, a).1)
    ensures FailedRead(s, k, a)
  {
    hide EncodeFrameAs, DecodeFrame, Lru.Put, Lru.Promote, Lawful;
  }

  lemma OwnWorkKeepsBound(c: Codec, s: State, t: nat, a: Answer, budget: nat)
    requires LocksOk(s) && WritersOk(c, s) && AllPlainsModerate(s) && t < |s.tasks| && !MovesLocks(s.tasks[t].pc)
    requires Bounded(c, s, s.tasks[t].sha, budget)
    ensures var sha := s.tasks[t].sha;
            Bounded(c, Advance(c, s, t, a), sha, budget + FailedReadOf(s, Step(t, a), sha))
  {
    hide Work, GoodFile, LocksOk, ModeratePlain, WriterOk;
    var s', k := Advance(c, s, t, a), s.tasks[t];
    assert ModeratePlain(k.pc) && WriterOk(c, s.store, k);
    PublishSettles(c, s, t, a);
    if s'.store.persisted == s.store.persisted {
      if GoodFile(c, s.store, k.sha) {
        WorkKeepsGoodFile(c, s.store, k, a);
        if Committed(s'.tasks[t].pc) && !Committed(k.pc) {
          WorkCommits(c, s.store, k, a);
        }
      } else {
        WorkMakesNoGoodFile(c, s.store, k, a);
      }
    }
  }

  lemma OtherWorkKeepsBound(c: Codec, s: State, t: nat, a: Answer, sha: Sha, budget: nat)
    requires t < |s.tasks| && s.tasks[t].sha != sha && !MovesLocks(s.tasks[t].pc) && Bounded(c, s, sha, budget)
    ensures Bounded(c, Advance(c, s, t, a), sha, budget)
  {
    hide Work, GoodFile;
    WorkLeavesOtherChunks(c, s.store, s.tasks[t], a, sha);
    SameFileIsGood(c, s.store, Advance(c, s, t, a).store, sha);
  }

  lemma LockStepKeepsBound(c: Codec, s: State, t: nat, a: Answer, sha: Sha, budget: nat)
    requires t < |s.tasks| && MovesLocks(s.tasks[t].pc) && Bounded(c, s, sha, budget)
    ensures Bounded(c, Advance(c, s, t, a), sha, budget)
  {
    hide Work, GoodFile;
    var s' := Advance(c, s, t, a);
    forall u | 0 <= u < |s'.tasks| && Committed(s'.tasks[u].pc) ensures s'.tasks[u] == s.tasks[u] {}
  }

  lemma NextKeepsBound(c: Codec, s: State, e: Event, sha: Sha, budget: nat)
    requires LocksOk(s) && WritersOk(c, s) && AllPlainsModerate(s) && Bounded(c, s, sha, budget) && Untouched(e)
    ensures Bounded(c, Next(c, s, e), sha, budget + FailedReadOf(s, e, sha))
  {
    hide Advance, LocksOk, WritersOk, AllPlainsModerate;
    if e.Step? && e.task < |s.tasks| {
      hide Bounded;
      if MovesLocks(s.tasks[e.task].pc) {
        LockStepKeepsBound(c, s, e.task, e.answer, sha, budget);
      } else if s.tasks[e.task].sha == sha {
        OwnWorkKeepsBound(c, s, e.task, e.answer, budget);
      } else {
        OtherWorkKeepsBound(c, s, e.task, e.answer, sha, budget);
      }
    } else {
      hide GoodFile;
      SameFileIsGood(c, s.store, Next(c, s, e).store, sha);
    }
  }

  lemma RunUnfolds(c: Codec, s: State, events: seq<Event>, sha: Sha)
    ensures events == [] ==> Run(c, s, events) == s && FailedReads(c, s, events, sha) == 0
    ensures events != [] ==>
              var s' := Next(c, s, events[0]);
              && Run(c, s, events) == Run(c, s', events[1..])
              && FailedReads(c, s, events, sha) == FailedReadOf(s, events[0], sha) + FailedReads(c, s', events[1..], sha)
  {
    hide Next, FailedReadOf;
  }

  lemma {:induction false} RunKeepsBound(c: Codec, s: State, events: seq<Event>, sha: Sha, budget: nat)
    requires LocksOk(s) && WritersOk(c, s) && AllPlainsModerate(s) && Bounded(c, s, sha, budget)
    requires Quiet(events)
    ensures Bounded(c, Run(c, s, events), sha, budget + FailedReads(c, s, events, sha))
    decreases |events|
  {
    hide Run, FailedReads, Next, LocksOk, WritersOk, AllPlainsModerate, Bounded, Untouched, Moderate, Quiet,
         FailedReadOf;
    RunUnfolds(c, s, events, sha);
    if events != [] {
      QuietTail(events);
      NextKeepsLocks(c, s, events[0]);
      NextKeepsWriters(c, s, events[0]);
      NextStaysModerate(c, s, events[0]);
      NextKeepsBound(c, s, events[0], sha, budget);
      RunKeepsBound(c, Next(c, s, events[0]), events[1..], sha, budget + FailedReadOf(s, events[0], sha));
    }
  }

  /** With nobody else changing chunk files, a chunk is downloaded and stored at most once, and
      once more for every time its file could not be read under the lock; not even once if its
      file was good at the start. Once it has been stored its file is good. */
  lemma DownloadsAreBounded(c: Codec, disk: map<Path, Bytes>, events: seq<Event>, sha: Sha)
    requires Quiet(events)
    ensures var s := Run(c, Init(disk), events).store;
            var first := if GoodFile(c, Init(disk).store, sha) then 0 else 1;
            && s.persisted[sha] <= first + FailedReads(c, Init(disk), events, sha)
            && (s.persisted[sha] >= 1 ==> GoodFile(c, s, sha))
  {
    hide GoodFile, Next;
    var s := Init(disk);
    RunKeepsBound(c, s, events, sha, if GoodFile(c, s.store, sha) then 0 else 1);
  }

  lemma {:induction false} UndisturbedReadsSucceed(c: Codec, s: State, events: seq<Event>, sha: Sha)
    requires AllUndisturbed(events)
    ensures FailedReads(c, s, events, sha) == 0
    decreases |events|
  {
    if events != [] {
      hide Next;
      assert Undisturbed(events[0]);
      UndisturbedReadsSucceed(c, Next(c, s, events[0]), events[1..], sha);
    }
  }

  /** Whatever the interleaving of `get` and `ensure`, evictions, failed fetches and writes, and
      initially corrupt files, a chunk whose file can be read is downloaded and stored at most
      once; afterwards its file is good. */
  lemma PersistedAtMostOnce(c: Codec, disk: map<Path, Bytes>, events: seq<Event>, sha: Sha)
    requires AllUndisturbed(events) && Quiet(events)
    ensures var s := Run(c, Init(disk), events).store;
            s.persisted[sha] <= 1 && (s.persisted[sha] == 1 ==> GoodFile(c, s, sha))
  {
    hide Next, GoodFile;
    UndisturbedReadsSucceed(c, Init(disk), events, sha);
    DownloadsAreBounded(c, disk, events, sha);
  }
}
