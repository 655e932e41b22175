/** What the cache leaves behind in its directory: no bad file that was read, and no temporary file
    of a call that succeeded. */
module ChunkCacheTidy {
  import opened Prelude
  import opened Frame
  import opened ChunkNames
  import opened ChunkCache
  import opened ChunkCacheLocks
  import opened ChunkCacheFiles
  import opened ChunkCacheOnce
  import Lru

  // ---- Bad files are deleted ----

  /** On the way from a missing chunk file to a new one. */
  predicate Loading(pc: Pc) {
    pc.Fetch? || pc.NameTemp? || pc.CreateTemp? || pc.WriteTemp? || pc.Publish?
  }

  /** Undisturbed, and deleting a corrupt file succeeds. */
  predicate Orderly(s: State, e: Event) {
    && Undisturbed(e)
    && (e.Step? && e.task < |s.tasks| && s.tasks[e.task].pc.Discard? ==> !e.answer.Refused?)
  }

  ghost predicate AllOrderly(c: Codec, s: State, events: seq<Event>)
    decreases |events|
  {
    events == [] || (Orderly(s, events[0]) && AllOrderly(c, Next(c, s, events[0]), events[1..]))
  }

  ghost predicate LoadersFindNothing(s: State) {
    forall t | 0 <= t < |s.tasks| && Loading(s.tasks[t].pc) :: Chunk(s.tasks[t].sha) !in s.store.disk
  }

  /** A task gets to load only past a missing file, or one it has deleted; and puts one there only
      when it is through. */
  lemma WorkFindsNothing(c: Codec, s: Store, k: Task, a: Answer)
    requires Loading(k.pc) ==> Chunk(k.sha) !in s.disk
    requires !a.Unreadable? && (k.pc.Discard? ==> !a.Refused?)
    ensures var (s', pc) := Work(c, s, k, a); Loading(pc) ==> Chunk(k.sha) !in s'.disk
    ensures var s' := Work(c, s, k, a).0;
            Chunk(k.sha) in s'.disk && Chunk(k.sha) !in s.disk ==> k.pc.Publish?
  {
    hide EncodeFrameAs, DecodeFrame, Lru.Put, Lru.Promote, Lru.Lookup, Lawful, WriteEnd;
  }

  lemma OnlyOneLoads(s: State, t: nat, u: nat)
    requires LocksOk(s) && t < |s.tasks| && u < |s.tasks| && s.tasks[t].sha == s.tasks[u].sha
    requires Loading(s.tasks[t].pc) && Loading(s.tasks[u].pc)
    ensures t == u
  {
    assert TaskLockOk(s, t) && TaskLockOk(s, u);
  }

  lemma AdvanceFindsNothing(c: Codec, s: State, t: nat, a: Answer)
    requires LocksOk(s) && LoadersFindNothing(s) && t < |s.tasks| && Orderly(s, Step(t, a))
    ensures LoadersFindNothing(Advance(c, s, t, a))
  {
    hide Work, LocksOk;
    var s', k := Advance(c, s, t, a), s.tasks[t];
    WorkFindsNothing(c, s.store, k, a);
    forall u | 0 <= u < |s'.tasks| && Loading(s'.tasks[u].pc) ensures Chunk(s'.tasks[u].sha) !in s'.store.disk {
      if u != t && s.tasks[u].sha == k.sha {
        if k.pc.Publish? {
          OnlyOneLoads(s, t, u);
        }
      } else if u != t {
        WorkLeavesOtherFiles(c, s.store, k, a, s.tasks[u].sha);
      }
    }
  }

  lemma NextFindsNothing(c: Codec, s: State, e: Event)
    requires LocksOk(s) && LoadersFindNothing(s) && Orderly(s, e)
    ensures LoadersFindNothing(Next(c, s, e))
  {
    hide Advance, LocksOk;
    if e.Step? && e.task < |s.tasks| {
      AdvanceFindsNothing(c, s, e.task, e.answer);
    }
  }

  lemma {:induction false} RunFindsNothing(c: Codec, s: State, events: seq<Event>)
    requires LocksOk(s) && LoadersFindNothing(s) && AllOrderly(c, s, events)
    ensures LoadersFindNothing(Run(c, s, events))
    decreases |events|
  {
    if events != [] {
      hide Next, LocksOk, LoadersFindNothing, Orderly;
      NextKeepsLocks(c, s, events[0]);
      NextFindsNothing(c, s, events[0]);
      RunFindsNothing(c, Next(c, s, events[0]), events[1..]);
    }
  }

  /** While a chunk is being downloaded its file is gone: one that does not decode, or that claims to
      be another chunk, has been deleted before the download starts. */
  lemma BadFilesAreDeleted(c: Codec, disk: map<Path, Bytes>, events: seq<Event>, t: nat)
    requires AllOrderly(c, Init(disk), events)
    requires var s := Run(c, Init(disk), events); t < |s.tasks| && Loading(s.tasks[t].pc)
    ensures var s := Run(c, Init(disk), events); Chunk(s.tasks[t].sha) !in s.store.disk
  {
    hide Next;
    RunFindsNothing(c, Init(disk), events);
  }

  // ---- Temporary files ----

  predicate Failing(pc: Pc) {
    pc == Unlock(Failed) || pc == DropLock(Failed) || pc == Finished(Failed)
  }

  /** `t` is writing the temporary file, or its call for the chunk has failed. */
  predicate Answers(s: State, t: nat, sha: Sha, nonce: nat) {
    t < |s.tasks| && s.tasks[t].sha == sha && (Nonce(s.tasks[t].pc) == Some(nonce) || Failing(s.tasks[t].pc))
  }

  ghost predicate TempExplained(disk: map<Path, Bytes>, s: State, sha: Sha, nonce: nat) {
    Temp(sha, nonce) in s.store.disk ==>
      Temp(sha, nonce) in disk || exists t: nat :: Answers(s, t, sha, nonce)
  }

  /** A step makes a temporary file only for its own task, and takes it along when it publishes. */
  lemma WorkTidiesUp(c: Codec, s: Store, k: Task, a: Answer, sha: Sha, nonce: nat)
    ensures var (s', pc) := Work(c, s, k, a);
            && (Temp(sha, nonce) in s'.disk && Temp(sha, nonce) !in s.disk ==> sha == k.sha && Nonce(pc) == Some(nonce))
            && (sha == k.sha && Nonce(k.pc) == Some(nonce) ==>
                  Nonce(pc) == Some(nonce) || pc == Unlock(Failed) || Temp(sha, nonce) !in s'.disk)
            && (Failing(k.pc) ==> pc == k.pc)
  {
    hide EncodeFrameAs, DecodeFrame, Lru.Put, Lru.Promote, Lru.Lookup, Lawful, WriteEnd;
  }

  lemma FailingStays(c: Codec, s: State, t: nat, a: Answer, u: nat)
    requires t < |s.tasks| && u < |s.tasks| && Failing(s.tasks[u].pc)
    ensures var s' := Advance(c, s, t, a);
            u < |s'.tasks| && s'.tasks[u].sha == s.tasks[u].sha && Failing(s'.tasks[u].pc)
  {
    hide EncodeFrameAs, DecodeFrame, Lru.Put, Lru.Promote, Lru.Lookup, Lawful, WriteEnd;
  }

  lemma OthersStand(c: Codec, s: State, t: nat, a: Answer, u: nat)
    requires t < |s.tasks| && u < |s.tasks| && (u != t || !MovesLocks(s.tasks[t].pc))
    ensures var s' := Advance(c, s, t, a);
            && u < |s'.tasks|
            && s'.tasks[u] == (if u == t then s.tasks[t].(pc := Work(c, s.store, s.tasks[t], a).1) else s.tasks[u])
            && s'.store == (if MovesLocks(s.tasks[t].pc) then s.store else Work(c, s.store, s.tasks[t], a).0)
  {
    hide Work;
  }

  lemma AnswererStays(c: Codec, s: State, t: nat, a: Answer, u: nat, sha: Sha, nonce: nat)
    requires t < |s.tasks| && Answers(s, u, sha, nonce) && Temp(sha, nonce) in Advance(c, s, t, a).store.disk
    ensures Answers(Advance(c, s, t, a), u, sha, nonce)
  {
    hide Work, Advance;
    if Failing(s.tasks[u].pc) {
      FailingStays(c, s, t, a, u);
    } else {
      OthersStand(c, s, t, a, u);
      WorkTidiesUp(c, s.store, s.tasks[t], a, sha, nonce);
    }
  }

  lemma AdvanceTidiesUp(c: Codec, disk: map<Path, Bytes>, s: State, t: nat, a: Answer, sha: Sha, nonce: nat)
    requires t < |s.tasks| && TempExplained(disk, s, sha, nonce)
    ensures TempExplained(disk, Advance(c, s, t, a), sha, nonce)
  {
    var s' := Advance(c, s, t, a);
    if Temp(sha, nonce) in s'.store.disk && Temp(sha, nonce) !in disk {
      hide Work;
      if Temp(sha, nonce) in s.store.disk {
        hide Advance, Answers;
        var u: nat :| Answers(s, u, sha, nonce);
        AnswererStays(c, s, t, a, u, sha, nonce);
      } else {
        WorkTidiesUp(c, s.store, s.tasks[t], a, sha, nonce);
        assert Answers(s', t, sha, nonce);
      }
    }
  }

  lemma NextTidiesUp(c: Codec, disk: map<Path, Bytes>, s: State, e: Event, sha: Sha, nonce: nat)
    requires TempExplained(disk, s, sha, nonce)
    ensures TempExplained(disk, Next(c, s, e), sha, nonce)
  {
    hide Advance;
    if e.Step? && e.task < |s.tasks| {
      AdvanceTidiesUp(c, disk, s, e.task, e.answer, sha, nonce);
    } else if t: nat :| Answers(s, t, sha, nonce) {
      assert Answers(Next(c, s, e), t, sha, nonce);
    }
  }

  lemma {:induction false} RunTidiesUp(c: Codec, disk: map<Path, Bytes>, s: State, events: seq<Event>, sha: Sha,
                                       nonce: nat)
    requires TempExplained(disk, s, sha, nonce)
    ensures TempExplained(disk, Run(c, s, events), sha, nonce)
    decreases |events|
  {
    if events != [] {
      hide Next, TempExplained;
      NextTidiesUp(c, disk, s, events[0], sha, nonce);
      RunTidiesUp(c, disk, Next(c, s, events[0]), events[1..], sha, nonce);
    }
  }

  /** In any run, whatever fails and whatever happens outside: a temporary file that is there was
      there at the start, is being written, or was left by a call for its chunk that failed. */
  lemma OnlyFailuresLeaveTemps(c: Codec, disk: map<Path, Bytes>, events: seq<Event>, sha: Sha, nonce: nat)
    requires Temp(sha, nonce) in Run(c, Init(disk), events).store.disk && Temp(sha, nonce) !in disk
    ensures var s := Run(c, Init(disk), events);
            exists t | 0 <= t < |s.tasks| && s.tasks[t].sha == sha ::
              Nonce(s.tasks[t].pc) == Some(nonce)
              || s.tasks[t].pc in {Unlock(Failed), DropLock(Failed), Finished(Failed)}
  {
    RunTidiesUp(c, disk, Init(disk), events, sha, nonce);
    var s := Run(c, Init(disk), events);
    var t: nat :| Answers(s, t, sha, nonce);
  }

  // ---- What makes a call fail ----

  /** The inner store or the file system lets the step down: no bytes, or not the chunk's; a temporary
      file that cannot be created, written or renamed, or is gone. */
  predicate LetDown(c: Codec, s: State, t: nat, a: Answer) {
    t < |s.tasks| &&
    match s.tasks[t].pc
    case Fetch => !a.Fetched? || c.sha1(a.bytes) != s.tasks[t].sha
    case CreateTemp(_, _) => a.Refused?
    case WriteTemp(_, _, _) => a.Refused?
    case Publish(_, nonce) => a.Refused? || Temp(s.tasks[t].sha, nonce) !in s.store.disk
    case _ => false
  }

  predicate Doomed(s: State, t: nat) {
    t < |s.tasks| && Failing(s.tasks[t].pc)
  }

  lemma LetDownDooms(c: Codec, s: State, t: nat, a: Answer)
    requires LetDown(c, s, t, a)
    ensures Doomed(Next(c, s, Step(t, a)), t)
  {
    hide EncodeFrameAs, DecodeFrame, Lru.Put, Lru.Promote, Lru.Lookup, Lawful, WriteEnd;
  }

  lemma NextStaysDoomed(c: Codec, s: State, e: Event, t: nat)
    requires Doomed(s, t)
    ensures Doomed(Next(c, s, e), t)
  {
    hide Advance;
    if e.Step? && e.task < |s.tasks| {
      FailingStays(c, s, e.task, e.answer, t);
    }
  }

  lemma {:induction false} DoomedStays(c: Codec, s: State, events: seq<Event>, t: nat)
    requires Doomed(s, t)
    ensures Doomed(Run(c, s, events), t)
    decreases |events|
  {
    if events != [] {
      hide Next, Doomed;
      NextStaysDoomed(c, s, events[0], t);
      DoomedStays(c, Next(c, s, events[0]), events[1..], t);
    }
  }

  lemma {:induction false} RunSplits(c: Codec, s: State, before: seq<Event>, e: Event, after: seq<Event>)
    ensures Run(c, s, before + [e] + after) == Run(c, Next(c, Run(c, s, before), e), after)
    decreases |before|
  {
    hide Next;
    var all := before + [e] + after;
    if before == [] {
      assert all[0] == e && all[1..] == after;
    } else {
      assert all[0] == before[0] && all[1..] == before[1..] + [e] + after;
      RunSplits(c, Next(c, s, before[0]), before[1..], e, after);
    }
  }

  /** A call that is let down once fails: it never returns bytes it could not store, and nothing makes
      up for it later. */
  lemma LetDownFails(c: Codec, disk: map<Path, Bytes>, before: seq<Event>, t: nat, a: Answer, after: seq<Event>)
    requires LetDown(c, Run(c, Init(disk), before), t, a)
    ensures var s := Run(c, Init(disk), before + [Step(t, a)] + after);
            t < |s.tasks| && (s.tasks[t].pc.Finished? ==> s.tasks[t].pc == Finished(Failed))
  {
    hide Next, Run;
    RunSplits(c, Init(disk), before, Step(t, a), after);
    LetDownDooms(c, Run(c, Init(disk), before), t, a);
    DoomedStays(c, Next(c, Run(c, Init(disk), before), Step(t, a)), after, t);
  }
}
