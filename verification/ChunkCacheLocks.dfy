/** One loader per chunk: the lock protocol of the chunk cache, over every run. */
module ChunkCacheLocks {
  import opened Prelude
  import opened Frame
  import opened ChunkNames
  import opened ChunkCache

  ghost predicate TaskLockOk(s: State, t: nat)
    requires t < |s.tasks|
  {
    var k := s.tasks[t];
    && (k.lock.Some? <==> HoldsLockObject(k.pc))
    && (k.lock.Some? ==> k.sha in s.loading && s.loading[k.sha] == k.lock.value)
    && (InSection(k.pc) ==> k.lock.value in s.held && s.held[k.lock.value] == t)
  }

  ghost predicate HolderOk(s: State, lock: nat)
    requires lock in s.held
  {
    var t := s.held[lock];
    t < |s.tasks| && s.tasks[t].lock == Some(lock) && InSection(s.tasks[t].pc)
  }

  /** Every lock object in use for a chunk is the registered one, a locked object names the task
      inside, and no two chunks are registered under one object. */
  ghost predicate LocksOk(s: State) {
    && (forall t | 0 <= t < |s.tasks| :: TaskLockOk(s, t))
    && (forall lock | lock in s.held :: HolderOk(s, lock))
    && (forall sha | sha in s.loading :: s.loading[sha] < s.nextLock)
    && (forall a, b | a in s.loading && b in s.loading && s.loading[a] == s.loading[b] :: a == b)
  }

  /** A step that leaves the lock tables alone and keeps its task on the same side of the lock. */
  ghost predicate LocalStep(s: State, s': State, t: nat)
    requires t < |s.tasks|
  {
    && s'.loading == s.loading && s'.nextLock == s.nextLock && s'.held == s.held
    && |s'.tasks| == |s.tasks|
    && (forall u | 0 <= u < |s.tasks| && u != t :: s'.tasks[u] == s.tasks[u])
    && s'.tasks[t].sha == s.tasks[t].sha
    && s'.tasks[t].lock == s.tasks[t].lock
    && HoldsLockObject(s'.tasks[t].pc) == HoldsLockObject(s.tasks[t].pc)
    && InSection(s'.tasks[t].pc) == InSection(s.tasks[t].pc)
  }

  lemma LocalStepKeepsLocks(s: State, s': State, t: nat)
    requires LocksOk(s) && t < |s.tasks| && LocalStep(s, s', t)
    ensures LocksOk(s')
  {
    forall u | 0 <= u < |s'.tasks| ensures TaskLockOk(s', u) {
      assert TaskLockOk(s, u);
    }
    forall lock | lock in s'.held ensures HolderOk(s', lock) {
      assert HolderOk(s, lock);
    }
  }

  lemma TakeLockObjectKeepsLocks(s: State, t: nat)
    requires LocksOk(s) && t < |s.tasks| && s.tasks[t].pc.NeedLock?
    ensures LocksOk(TakeLockObject(s, t))
  {
    var k := s.tasks[t];
    var s' := TakeLockObject(s, t);
    assert TaskLockOk(s, t);
    forall u | 0 <= u < |s'.tasks| ensures TaskLockOk(s', u) {
      assert TaskLockOk(s, u);
      if u != t && s.tasks[u].lock.Some? && s.tasks[u].sha == k.sha {
        assert Live(s, s.loading[k.sha]);
      }
    }
    forall lock | lock in s'.held ensures HolderOk(s', lock) {
      assert HolderOk(s, lock);
    }
  }

  lemma AcquireKeepsLocks(s: State, t: nat)
    requires LocksOk(s) && t < |s.tasks| && s.tasks[t].pc.Waiting?
    ensures LocksOk(Acquire(s, t))
  {
    var s' := Acquire(s, t);
    assert TaskLockOk(s, t);
    forall u | 0 <= u < |s'.tasks| ensures TaskLockOk(s', u) {
      assert TaskLockOk(s, u);
    }
    forall lock | lock in s'.held ensures HolderOk(s', lock) {
      if lock in s.held {
        assert HolderOk(s, lock);
      }
    }
  }

  lemma ReleaseKeepsLocks(s: State, t: nat)
    requires LocksOk(s) && t < |s.tasks| && s.tasks[t].pc.Unlock?
    ensures LocksOk(Release(s, t, s.tasks[t].pc.out))
  {
    var s' := Release(s, t, s.tasks[t].pc.out);
    assert TaskLockOk(s, t);
    forall u | 0 <= u < |s'.tasks| ensures TaskLockOk(s', u) {
      assert TaskLockOk(s, u);
    }
    forall lock | lock in s'.held ensures HolderOk(s', lock) {
      assert HolderOk(s, lock);
    }
  }

  lemma LeaveKeepsLocks(s: State, t: nat)
    requires LocksOk(s) && t < |s.tasks| && s.tasks[t].pc.DropLock?
    ensures LocksOk(Leave(s, t, s.tasks[t].pc.out))
  {
    var s' := Leave(s, t, s.tasks[t].pc.out);
    assert TaskLockOk(s, t);
    forall u | 0 <= u < |s'.tasks| ensures TaskLockOk(s', u) {
      assert TaskLockOk(s, u);
    }
    forall lock | lock in s'.held ensures HolderOk(s', lock) {
      assert HolderOk(s, lock);
    }
  }

  predicate MovesLocks(pc: Pc) {
    pc.NeedLock? || pc.Waiting? || pc.Unlock? || pc.DropLock?
  }

  lemma WorkStaysOnItsSide(c: Codec, s: Store, k: Task, a: Answer)
    requires !MovesLocks(k.pc)
    ensures HoldsLockObject(Work(c, s, k, a).1) == HoldsLockObject(k.pc)
    ensures InSection(Work(c, s, k, a).1) == InSection(k.pc)
  {
    hide EncodeFrameAs, DecodeFrame, Lru.Put, Lru.Promote;
  }

  lemma OutsideKeepsLocks(c: Codec, s: State, e: Event)
    requires LocksOk(s) && (e.Step? ==> e.task >= |s.tasks|)
    ensures LocksOk(Next(c, s, e))
  {
    var s' := Next(c, s, e);
    forall u | 0 <= u < |s'.tasks| ensures TaskLockOk(s', u) {
      if u < |s.tasks| {
        assert TaskLockOk(s, u);
      }
    }
    forall lock | lock in s'.held ensures HolderOk(s', lock) {
      assert HolderOk(s, lock);
    }
  }

  lemma NextKeepsLocks(c: Codec, s: State, e: Event)
    requires LocksOk(s)
    ensures LocksOk(Next(c, s, e))
  {
    hide Work, TaskLockOk, HolderOk;
    var s' := Next(c, s, e);
    if e.Step? && e.task < |s.tasks| {
      var t := e.task;
      match s.tasks[t].pc {
        case NeedLock => TakeLockObjectKeepsLocks(s, t);
        case Waiting => AcquireKeepsLocks(s, t);
        case Unlock(_) => ReleaseKeepsLocks(s, t);
        case DropLock(_) => LeaveKeepsLocks(s, t);
        case _ =>
          WorkStaysOnItsSide(c, s.store, s.tasks[t], e.answer);
          LocalStepKeepsLocks(s, s', t);
      }
    } else {
      OutsideKeepsLocks(c, s, e);
    }
  }

  lemma {:induction false} RunKeepsLocks(c: Codec, s: State, events: seq<Event>)
    requires LocksOk(s)
    ensures LocksOk(Run(c, s, events))
    decreases |events|
  {
    if events != [] {
      NextKeepsLocks(c, s, events[0]);
      RunKeepsLocks(c, Next(c, s, events[0]), events[1..]);
    }
  }

  /** In every reachable state, at most one task per chunk is inside the load section, and all
      lock objects in use for a chunk are one object. */
  lemma OneLoaderPerChunk(c: Codec, disk: map<Path, Bytes>, events: seq<Event>, t: nat, u: nat)
    requires var s := Run(c, Init(disk), events);
             t < |s.tasks| && u < |s.tasks| && s.tasks[t].sha == s.tasks[u].sha
    ensures var s := Run(c, Init(disk), events);
            && (InSection(s.tasks[t].pc) && InSection(s.tasks[u].pc) ==> t == u)
            && (s.tasks[t].lock.Some? && s.tasks[u].lock.Some? ==> s.tasks[t].lock == s.tasks[u].lock)
  {
    RunKeepsLocks(c, Init(disk), events);
    var s := Run(c, Init(disk), events);
    assert TaskLockOk(s, t) && TaskLockOk(s, u);
  }

  /** Loads of different chunks never wait for each other. */
  lemma ChunksDoNotShareLocks(c: Codec, disk: map<Path, Bytes>, events: seq<Event>, t: nat, u: nat)
    requires var s := Run(c, Init(disk), events);
             t < |s.tasks| && u < |s.tasks| && s.tasks[t].sha != s.tasks[u].sha
    ensures var s := Run(c, Init(disk), events);
            s.tasks[t].lock.Some? ==> s.tasks[t].lock != s.tasks[u].lock
  {
    RunKeepsLocks(c, Init(disk), events);
    var s := Run(c, Init(disk), events);
    assert TaskLockOk(s, t) && TaskLockOk(s, u);
  }

  // ---- Progress ----

  ghost predicate CanStep(s: State, t: nat) {
    && t < |s.tasks|
    && !s.tasks[t].pc.Finished?
    && (s.tasks[t].pc.Waiting? ==> s.tasks[t].lock.Some? && s.tasks[t].lock.value !in s.held)
  }

  /** How far a task has come; a task's steps only ever go forward. */
  function Stage(pc: Pc): nat {
    match pc
    case Start => 0
    case NeedLock => 1
    case Waiting => 2
    case Recheck => 3
    case ReadDisk => 4
    case Discard => 5
    case Fetch => 6
    case NameTemp(_) => 7
    case CreateTemp(_, _) => 8
    case WriteTemp(_, _, _) => 9
    case Publish(_, _) => 10
    case Remember(_) => 11
    case Unlock(_) => 12
    case DropLock(_) => 13
    case Finished(_) => 14
  }

  /** While anything is unfinished, some task can move: the lock protocol cannot deadlock. */
  lemma NoDeadlock(c: Codec, disk: map<Path, Bytes>, events: seq<Event>, t: nat)
    requires var s := Run(c, Init(disk), events); t < |s.tasks| && !s.tasks[t].pc.Finished?
    ensures var s := Run(c, Init(disk), events);
            exists u: nat :: CanStep(s, u) && s.tasks[u].sha == s.tasks[t].sha
  {
    RunKeepsLocks(c, Init(disk), events);
    var s := Run(c, Init(disk), events);
    assert TaskLockOk(s, t);
    if !CanStep(s, t) {
      var lock := s.tasks[t].lock.value;
      assert HolderOk(s, lock);
      assert TaskLockOk(s, s.held[lock]);
      assert CanStep(s, s.held[lock]);
    }
  }

  /** One pc after another on the way to the end, or more written of the same file. */
  ghost predicate Forward(c: Codec, sha: Sha, before: Pc, after: Pc) {
    || Stage(before) < Stage(after)
    || (before.WriteTemp? && after.WriteTemp? && after.plain == before.plain && after.nonce == before.nonce
        && before.written < after.written < |EncodeFrameAs(c, before.plain, sha)|)
  }

  lemma WorkGoesForward(c: Codec, s: Store, k: Task, a: Answer)
    requires !MovesLocks(k.pc) && !k.pc.Finished?
    ensures Forward(c, k.sha, k.pc, Work(c, s, k, a).1)
  {
    hide EncodeFrameAs, DecodeFrame, Lru.Put, Lru.Promote;
  }

  lemma LockStepGoesForward(c: Codec, s: State, t: nat, a: Answer)
    requires CanStep(s, t) && MovesLocks(s.tasks[t].pc)
    ensures var s' := Advance(c, s, t, a);
            && s'.tasks == s.tasks[t := s'.tasks[t]]
            && Forward(c, s.tasks[t].sha, s.tasks[t].pc, s'.tasks[t].pc)
  {
    hide Work, EncodeFrameAs;
  }

  /** Every enabled step of a task, whatever it is answered, brings that task closer to its end
      and leaves every other task where it is; a write that is not the last one shortens what is
      left to write. */
  lemma StepsGoForward(c: Codec, s: State, t: nat, a: Answer)
    requires LocksOk(s) && CanStep(s, t)
    ensures var s' := Advance(c, s, t, a);
            && s'.tasks == s.tasks[t := s'.tasks[t]]
            && Forward(c, s.tasks[t].sha, s.tasks[t].pc, s'.tasks[t].pc)
  {
    hide Work, Forward;
    if !MovesLocks(s.tasks[t].pc) {
      WorkGoesForward(c, s.store, s.tasks[t], a);
    } else {
      assert TaskLockOk(s, t);
      LockStepGoesForward(c, s, t, a);
    }
  }
}
