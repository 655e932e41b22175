/** What success means for the directory: the chunk's file is there, and good. */
module ChunkCacheStored {
  import opened Prelude
  import opened Frame
  import opened ChunkNames
  import opened ChunkCache
  import opened ChunkCacheLocks
  import opened ChunkCacheFiles
  import opened ChunkCacheOnce
  import Lru

  /** Past the point where the chunk's bytes were read or stored. */
  predicate HasLoaded(pc: Pc) {
    match pc
    case Remember(_) => true
    case Unlock(out) => out.Served?
    case DropLock(out) => out.Served?
    case Finished(out) => out.Served?
    case _ => false
  }

  /** Past the point where the chunk's file was only seen to be there. */
  predicate HasSeen(pc: Pc) {
    match pc
    case Unlock(out) => out.Ensured?
    case DropLock(out) => out.Ensured?
    case Finished(out) => out.Ensured?
    case _ => false
  }

  /** Something in the system vouches for the chunk: memory, a task that has loaded it, and from
      a clean start also its file, or a task that has seen the file. */
  ghost predicate VouchedFor(s: State, sha: Sha, clean: bool) {
    || sha in s.store.decoded.values
    || (exists t :: 0 <= t < |s.tasks| && s.tasks[t].sha == sha && HasLoaded(s.tasks[t].pc))
    || (clean && Chunk(sha) in s.store.disk)
    || (clean && exists t :: 0 <= t < |s.tasks| && s.tasks[t].sha == sha && HasSeen(s.tasks[t].pc))
  }

  /** A chunk that is vouched for has a good file that nobody is about to delete. */
  ghost predicate Backed(c: Codec, s: State, sha: Sha, clean: bool) {
    VouchedFor(s, sha, clean) ==> Kept(c, s, sha)
  }

  lemma AdvanceStaysKept(c: Codec, s: State, t: nat, a: Answer, sha: Sha)
    requires WritersOk(c, s) && AllPlainsModerate(s) && t < |s.tasks| && Kept(c, s, sha)
    ensures Kept(c, Advance(c, s, t, a), sha)
  {
    hide Work, GoodFile, WriterOk, ModeratePlain;
    var s', k := Advance(c, s, t, a), s.tasks[t];
    assert WriterOk(c, s.store, k) && ModeratePlain(k.pc);
    if k.sha == sha {
      WorkKeepsGoodFile(c, s.store, k, a);
    } else {
      WorkLeavesOtherChunks(c, s.store, k, a, sha);
    }
    SameFileIsGood(c, s.store, if MovesLocks(k.pc) || k.sha != sha then s'.store else s.store, sha);
  }

  /** A step after which its task, memory or the file vouches for the chunk for the first time is
      one that stored it, or read it from a good file. */
  lemma WorkVouches(c: Codec, s: Store, k: Task, a: Answer)
    requires Work(c, s, k, a).0.persisted == s.persisted && k.sha !in s.decoded.values && !HasLoaded(k.pc)
    ensures var (s', pc) := Work(c, s, k, a);
            && k.sha !in s'.decoded.values
            && (HasLoaded(pc) ==> k.pc.ReadDisk? && GoodFile(c, s, k.sha) && s' == s)
            && (HasSeen(pc) && !HasSeen(k.pc) ==> Chunk(k.sha) in s.disk)
            && (Chunk(k.sha) in s'.disk ==> Chunk(k.sha) in s.disk)
  {
    hide EncodeFrameAs, DecodeFrame, Lru.Put, Lru.Promote, Lawful;
    assert (s.persisted + multiset{k.sha})[k.sha] == s.persisted[k.sha] + 1;
  }

  lemma WorkRemembersOwnChunk(c: Codec, s: Store, k: Task, a: Answer, sha: Sha)
    requires sha != k.sha && sha in Work(c, s, k, a).0.decoded.values
    ensures sha in s.decoded.values
  {
    hide EncodeFrameAs, DecodeFrame, Lawful, Lru.ToFront, Lru.Take;
  }

  /** Reading a good file under the lock: nobody else can be about to delete it. */
  lemma ReaderKeeps(c: Codec, s: State, t: nat, a: Answer)
    requires LocksOk(s) && t < |s.tasks| && s.tasks[t].pc.ReadDisk?
    requires GoodFile(c, s.store, s.tasks[t].sha) && Work(c, s.store, s.tasks[t], a).0 == s.store
    requires !Work(c, s.store, s.tasks[t], a).1.Discard?
    ensures Kept(c, Advance(c, s, t, a), s.tasks[t].sha)
  {
    hide Work, GoodFile;
    var s', sha := Advance(c, s, t, a), s.tasks[t].sha;
    forall u | 0 <= u < |s'.tasks| && s'.tasks[u].sha == sha ensures !s'.tasks[u].pc.Discard? {
      assert TaskLockOk(s, t) && TaskLockOk(s, u);
    }
  }

  lemma OwnWorkKeepsBacked(c: Codec, s: State, t: nat, a: Answer, clean: bool)
    requires LocksOk(s) && WritersOk(c, s) && AllPlainsModerate(s) && t < |s.tasks| && !MovesLocks(s.tasks[t].pc)
    requires !VouchedFor(s, s.tasks[t].sha, clean)
    ensures Backed(c, Advance(c, s, t, a), s.tasks[t].sha, clean)
  {
    hide Work, GoodFile, LocksOk, WriterOk, ModeratePlain;
    var s', k := Advance(c, s, t, a), s.tasks[t];
    assert ModeratePlain(k.pc);
    PublishSettles(c, s, t, a);
    if s'.store.persisted == s.store.persisted {
      WorkVouches(c, s.store, k, a);
      if HasLoaded(s'.tasks[t].pc) {
        ReaderKeeps(c, s, t, a);
      }
    }
  }

  lemma OtherWorkKeepsBacked(c: Codec, s: State, t: nat, a: Answer, sha: Sha, clean: bool)
    requires t < |s.tasks| && s.tasks[t].sha != sha && !MovesLocks(s.tasks[t].pc) && !VouchedFor(s, sha, clean)
    ensures !VouchedFor(Advance(c, s, t, a), sha, clean)
  {
    hide Work;
    WorkLeavesOtherChunks(c, s.store, s.tasks[t], a, sha);
    if sha in Advance(c, s, t, a).store.decoded.values {
      WorkRemembersOwnChunk(c, s.store, s.tasks[t], a, sha);
    }
  }

  lemma LockStepKeepsBacked(c: Codec, s: State, t: nat, a: Answer, sha: Sha, clean: bool)
    requires t < |s.tasks| && MovesLocks(s.tasks[t].pc) && !VouchedFor(s, sha, clean)
    ensures !VouchedFor(Advance(c, s, t, a), sha, clean)
  {
    hide Work;
    var s' := Advance(c, s, t, a);
    forall u | 0 <= u < |s'.tasks| && s'.tasks[u].sha == sha
      ensures !HasLoaded(s'.tasks[u].pc) && (clean ==> !HasSeen(s'.tasks[u].pc))
    {
      assert s.tasks[u].sha == sha;
    }
  }

  lemma OutsideKeepsBacked(c: Codec, s: State, e: Event, sha: Sha, clean: bool)
    requires Backed(c, s, sha, clean) && Untouched(e) && (e.Step? ==> e.task >= |s.tasks|)
    ensures Backed(c, Next(c, s, e), sha, clean)
  {
    hide GoodFile;
    var s' := Next(c, s, e);
    SameFileIsGood(c, s.store, s'.store, sha);
    forall t | 0 <= t < |s'.tasks| && (HasLoaded(s'.tasks[t].pc) || HasSeen(s'.tasks[t].pc))
      ensures t < |s.tasks| && s'.tasks[t] == s.tasks[t]
    {}
  }

  lemma NextKeepsBacked(c: Codec, s: State, e: Event, sha: Sha, clean: bool)
    requires LocksOk(s) && WritersOk(c, s) && AllPlainsModerate(s) && Backed(c, s, sha, clean) && Untouched(e)
    ensures Backed(c, Next(c, s, e), sha, clean)
  {
    hide Advance, LocksOk, WritersOk, AllPlainsModerate, GoodFile;
    if e.Step? && e.task < |s.tasks| {
      hide VouchedFor, Kept;
      var t, a := e.task, e.answer;
      if VouchedFor(s, sha, clean) {
        AdvanceStaysKept(c, s, t, a, sha);
      } else if MovesLocks(s.tasks[t].pc) {
        LockStepKeepsBacked(c, s, t, a, sha, clean);
      } else if s.tasks[t].sha == sha {
        OwnWorkKeepsBacked(c, s, t, a, clean);
      } else {
        OtherWorkKeepsBacked(c, s, t, a, sha, clean);
      }
    } else {
      OutsideKeepsBacked(c, s, e, sha, clean);
    }
  }

  lemma {:induction false} RunKeepsBacked(c: Codec, s: State, events: seq<Event>, sha: Sha, clean: bool)
    requires LocksOk(s) && WritersOk(c, s) && AllPlainsModerate(s) && Backed(c, s, sha, clean)
    requires Quiet(events)
    ensures Backed(c, Run(c, s, events), sha, clean)
    decreases |events|
  {
    if events != [] {
      hide Next, LocksOk, WritersOk, AllPlainsModerate, Backed, Untouched, Moderate, Quiet;
      QuietTail(events);
      NextKeepsLocks(c, s, events[0]);
      NextKeepsWriters(c, s, events[0]);
      NextStaysModerate(c, s, events[0]);
      NextKeepsBacked(c, s, events[0], sha, clean);
      RunKeepsBacked(c, Next(c, s, events[0]), events[1..], sha, clean);
    }
  }

  /** With nobody else changing chunk files: once a `get` has been served the chunk's good file is
      there to stay, whatever file there was at the start. */
  lemma ServedMeansStored(c: Codec, disk: map<Path, Bytes>, events: seq<Event>, t: nat)
    requires Quiet(events)
    requires var s := Run(c, Init(disk), events);
             t < |s.tasks| && s.tasks[t].pc.Finished? && s.tasks[t].pc.out.Served?
    ensures var s := Run(c, Init(disk), events); GoodFile(c, s.store, s.tasks[t].sha)
  {
    hide Next, GoodFile;
    var s := Run(c, Init(disk), events);
    RunKeepsBacked(c, Init(disk), events, s.tasks[t].sha, false);
    assert HasLoaded(s.tasks[t].pc);
  }

  predicate EnsuredBy(s: State, sha: Sha, t: nat) {
    t < |s.tasks| && s.tasks[t].sha == sha && s.tasks[t].pc == Finished(Ensured)
  }

  /** In every such run, once an `ensure` of the chunk has succeeded its file is good. */
  ghost predicate EnsureLeavesGoodFile(c: Codec, disk: map<Path, Bytes>, sha: Sha) {
    forall events, t: nat | Quiet(events) && EnsuredBy(Run(c, Init(disk), events), sha, t) ::
      GoodFile(c, Run(c, Init(disk), events).store, sha)
  }

  /** An `ensure` does not read the file it finds: a bad one passes. */
  lemma BadFilePasses(c: Codec, disk: map<Path, Bytes>, sha: Sha)
    requires Chunk(sha) in disk && !GoodFile(c, Init(disk).store, sha)
    ensures var events := [Spawn(Ensure, sha), Step(0, Fine)];
            && Quiet(events)
            && EnsuredBy(Run(c, Init(disk), events), sha, 0)
            && !GoodFile(c, Run(c, Init(disk), events).store, sha)
  {
    hide GoodFile, EncodeFrameAs, DecodeFrame, Lawful;
    var spawned := Next(c, Init(disk), Spawn(Ensure, sha));
    var events := [Spawn(Ensure, sha), Step(0, Fine)];
    assert events[1..] == [Step(0, Fine)] && [Step(0, Fine)][1..] == [];
    assert Run(c, Init(disk), events) == Run(c, spawned, [Step(0, Fine)]);
    assert Run(c, spawned, [Step(0, Fine)]) == Run(c, Next(c, spawned, Step(0, Fine)), []);
  }

  /** A successful `ensure` means a good file if and only if the file is absent or good at the
      start. */
  lemma EnsuredMeansStoredIff(c: Codec, disk: map<Path, Bytes>, sha: Sha)
    ensures EnsureLeavesGoodFile(c, disk, sha) <==> (Chunk(sha) in disk ==> GoodFile(c, Init(disk).store, sha))
  {
    hide Next, GoodFile, Run;
    if Chunk(sha) in disk && !GoodFile(c, Init(disk).store, sha) {
      BadFilePasses(c, disk, sha);
    } else {
      forall events, t: nat | Quiet(events) && EnsuredBy(Run(c, Init(disk), events), sha, t)
        ensures GoodFile(c, Run(c, Init(disk), events).store, sha)
      {
        RunKeepsBacked(c, Init(disk), events, sha, true);
        assert HasSeen(Run(c, Init(disk), events).tasks[t].pc);
      }
    }
  }
}
