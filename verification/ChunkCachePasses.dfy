/** Reading whole files through the cache, one `get` at a time: what stays in memory. */
module ChunkCachePasses {
  import opened Prelude
  import opened Frame
  import opened ChunkNames
  import opened ChunkCache
  import opened ChunkCacheIntegrity
  import Lru

  /** The steps of task `t` alone, and whatever happens to the files. */
  predicate OnlyTask(e: Event, t: nat) {
    match e
    case Spawn(_, _) => false
    case Step(u, _) => u == t
    case Remove(_) => true
    case Replace(_, _) => true
  }

  ghost predicate AllOnlyTask(events: seq<Event>, t: nat) {
    forall e | e in events :: OnlyTask(e, t)
  }

  predicate ServedAt(s: State, t: nat) {
    t < |s.tasks| && s.tasks[t].pc.Finished? && s.tasks[t].pc.out.Served?
  }

  /** A `get` of `sha` that is served while no other task moves. Other tasks may be under way. */
  ghost predicate LoneGet(c: Codec, s: State, events: seq<Event>, sha: Sha) {
    && events != [] && events[0] == Spawn(Get, sha)
    && AllOnlyTask(events[1..], |s.tasks|)
    && ServedAt(Run(c, s, events), |s.tasks|)
  }

  /** Consecutive `get`s of the chunks of a file. */
  ghost predicate Pass(c: Codec, s: State, gets: seq<seq<Event>>, file: seq<Sha>)
    decreases |gets|
  {
    && |gets| == |file|
    && (gets != [] ==> LoneGet(c, s, gets[0], file[0]) && Pass(c, Run(c, s, gets[0]), gets[1..], file[1..]))
  }

  function Flatten(gets: seq<seq<Event>>): seq<Event> {
    if gets == [] then [] else gets[0] + Flatten(gets[1..])
  }

  lemma {:induction false} RunConcat(c: Codec, s: State, a: seq<Event>, b: seq<Event>)
    ensures Run(c, s, a + b) == Run(c, Run(c, s, a), b)
    ensures CacheOps(c, s, a + b) == CacheOps(c, s, a) + CacheOps(c, Run(c, s, a), b)
    decreases |a|
  {
    hide Next, CacheOp;
    if a == [] {
      assert a + b == b;
    } else {
      assert (a + b)[1..] == a[1..] + b;
      RunConcat(c, Next(c, s, a[0]), a[1..], b);
    }
  }

  // ---- One get touches its chunk once ----

  /** The call is over but for the locks. */
  predicate Ending(pc: Pc) {
    pc.Unlock? || pc.DropLock? || pc.Finished?
  }

  /** What one step does to the pool and to the call, as far as touches are concerned. */
  lemma StepTouches(c: Codec, s: State, t: nat, a: Answer)
    requires t < |s.tasks| && s.tasks[t].kind.Get?
    ensures var s', k, ops := Advance(c, s, t, a), s.tasks[t], CacheOp(s, Step(t, a));
            && t < |s'.tasks| && s'.tasks[t].kind.Get? && s'.tasks[t].sha == k.sha
            && (Ending(k.pc) ==> ops == [] && Ending(s'.tasks[t].pc) && s'.tasks[t].pc.out == k.pc.out)
            && (!Ending(k.pc) && Ending(s'.tasks[t].pc) && s'.tasks[t].pc.out.Served? ==>
                  |ops| == 1 && ops[0].key == k.sha && (ops[0].Insert? || k.sha in s.store.decoded.values))
            && (!Ending(k.pc) && !Ending(s'.tasks[t].pc) ==>
                  ops == [] || (ops == [Lru.Get(k.sha)] && k.sha !in s.store.decoded.values))
  {
    hide EncodeFrameAs, DecodeFrame, Lru.Put, Lru.Promote, Lawful, Live, ChunkLock;
  }

  lemma TouchOne(ops: seq<Lru.Op>, op: Lru.Op)
    ensures Lru.Touches(160, ops + [op]) ==
              if op.Insert? || op.key in Lru.Replay(160, ops).values then Lru.Touches(160, ops) + [op.key]
              else Lru.Touches(160, ops)
  {
    hide Lru.Replay;
    assert (ops + [op])[..|ops|] == ops;
  }

  /** The touch a `get` still has to make: its chunk's, until the call is decided. */
  function Owed(s: State, t: nat): seq<Sha>
    requires t < |s.tasks|
  {
    if Ending(s.tasks[t].pc) then [] else [s.tasks[t].sha]
  }

  /** A `get` under way that has not failed. */
  predicate Going(s: State, t: nat) {
    t < |s.tasks| && s.tasks[t].kind.Get? && (Ending(s.tasks[t].pc) ==> s.tasks[t].pc.out.Served?)
  }

  lemma TaskRemains(c: Codec, s: State, e: Event, t: nat)
    requires t < |s.tasks| && OnlyTask(e, t)
    ensures var s' := Next(c, s, e);
            && t < |s'.tasks| && s'.tasks[t].kind == s.tasks[t].kind && s'.tasks[t].sha == s.tasks[t].sha
            && (!e.Step? ==> s'.tasks[t] == s.tasks[t] && CacheOp(s, e) == [])
            && (e.Step? ==> s' == Advance(c, s, t, e.answer) && e.task == t)
  {
    hide Work, Live, ChunkLock;
  }

  /** One step of a call that does not fail makes the touch when it decides the call. */
  lemma NextTouches(c: Codec, s: State, e: Event, t: nat, ops: seq<Lru.Op>)
    requires t < |s.tasks| && s.tasks[t].kind.Get? && OnlyTask(e, t) && s.store.decoded == Lru.Replay(160, ops)
    ensures var s' := Next(c, s, e);
            && t < |s'.tasks| && s'.tasks[t].kind.Get?
            && s'.store.decoded == Lru.Replay(160, ops + CacheOp(s, e))
            && (Going(s', t) ==>
                  Going(s, t) && Lru.Touches(160, ops + CacheOp(s, e)) + Owed(s', t) == Lru.Touches(160, ops) + Owed(s, t))
  {
    hide Advance, CacheOp, Lru.Replay, Lru.Touches;
    var op := CacheOp(s, e);
    TaskRemains(c, s, e, t);
    NextAppliesCacheOp(c, s, e);
    ReplayAppends(ops, op);
    if op == [] {
      assert ops + op == ops;
    } else {
      assert op == [op[0]];
      TouchOne(ops, op[0]);
    }
    if e.Step? {
      StepTouches(c, s, t, e.answer);
    }
  }

  lemma OnlyTaskTail(events: seq<Event>, t: nat)
    requires AllOnlyTask(events, t) && events != []
    ensures OnlyTask(events[0], t) && AllOnlyTask(events[1..], t)
  {
    hide OnlyTask;
    assert events[0] in events && forall e | e in events[1..] :: e in events;
  }

  lemma NothingOwed(c: Codec, s: State, t: nat, ops: seq<Lru.Op>)
    requires ServedAt(Run(c, s, []), t) && t < |s.tasks| && s.tasks[t].kind.Get?
    ensures Going(s, t) && Lru.Touches(160, ops + CacheOps(c, s, [])) == Lru.Touches(160, ops) + Owed(s, t)
  {
    hide Next, CacheOp, Lru.Touches;
    assert ops + CacheOps(c, s, []) == ops;
  }

  lemma OpsUnfold(c: Codec, s: State, events: seq<Event>)
    requires events != []
    ensures Run(c, s, events) == Run(c, Next(c, s, events[0]), events[1..])
    ensures CacheOps(c, s, events) == CacheOp(s, events[0]) + CacheOps(c, Next(c, s, events[0]), events[1..])
  {
    hide Next, CacheOp;
  }

  /** From any point of a `get` to its being served: one touch if it is not decided yet, else none. */
  lemma {:induction false} GetTouchesOnce(c: Codec, s: State, events: seq<Event>, t: nat, ops: seq<Lru.Op>)
    requires t < |s.tasks| && s.tasks[t].kind.Get? && AllOnlyTask(events, t)
    requires s.store.decoded == Lru.Replay(160, ops)
    requires ServedAt(Run(c, s, events), t)
    ensures Going(s, t) && Lru.Touches(160, ops + CacheOps(c, s, events)) == Lru.Touches(160, ops) + Owed(s, t)
    decreases |events|
  {
    hide Next, CacheOp, Lru.Replay, Lru.Touches, Run, CacheOps, AllOnlyTask, OnlyTask, Going, Owed, ServedAt;
    if events == [] {
      NothingOwed(c, s, t, ops);
    } else {
      OnlyTaskTail(events, t);
      OpsUnfold(c, s, events);
      var s', op := Next(c, s, events[0]), CacheOp(s, events[0]);
      NextTouches(c, s, events[0], t, ops);
      GetTouchesOnce(c, s', events[1..], t, ops + op);
      assert ops + (op + CacheOps(c, s', events[1..])) == (ops + op) + CacheOps(c, s', events[1..]);
    }
  }

  lemma LoneGetTouches(c: Codec, s: State, events: seq<Event>, sha: Sha, ops: seq<Lru.Op>)
    requires LoneGet(c, s, events, sha) && s.store.decoded == Lru.Replay(160, ops)
    ensures Lru.Touches(160, ops + CacheOps(c, s, events)) == Lru.Touches(160, ops) + [sha]
  {
    hide Lru.Replay, Lru.Touches, Run, CacheOps;
    OpsUnfold(c, s, events);
    var s' := Next(c, s, events[0]);
    assert CacheOp(s, events[0]) == [];
    assert [] + CacheOps(c, s', events[1..]) == CacheOps(c, s', events[1..]);
    GetTouchesOnce(c, s', events[1..], |s.tasks|, ops);
  }

  lemma NoOps(c: Codec, s: State)
    ensures CacheOps(c, s, []) == []
  {
    hide Next;
  }

  /** A pass over a file touches its chunks once each, in order. */
  lemma {:induction false} PassTouches(c: Codec, s: State, gets: seq<seq<Event>>, file: seq<Sha>, ops: seq<Lru.Op>)
    requires Pass(c, s, gets, file) && s.store.decoded == Lru.Replay(160, ops)
    ensures Lru.Touches(160, ops + CacheOps(c, s, Flatten(gets))) == Lru.Touches(160, ops) + file
    decreases |gets|
  {
    hide Lru.Replay, Lru.Touches, Run, CacheOps, LoneGet;
    if gets == [] {
      assert CacheOps(c, s, []) == [] by {
        NoOps(c, s);
      }
      assert ops + [] == ops && Lru.Touches(160, ops) + file == Lru.Touches(160, ops);
    } else {
      var s' := Run(c, s, gets[0]);
      var first, rest := CacheOps(c, s, gets[0]), CacheOps(c, s', Flatten(gets[1..]));
      RunConcat(c, s, gets[0], Flatten(gets[1..]));
      LoneGetTouches(c, s, gets[0], file[0], ops);
      RunAppliesCacheOps(c, s, gets[0], ops);
      PassTouches(c, s', gets[1..], file[1..], ops + first);
      assert ops + (first + rest) == (ops + first) + rest;
      assert (Lru.Touches(160, ops) + [file[0]]) + file[1..] == Lru.Touches(160, ops) + file;
    }
  }

  lemma EmptyReplay(c: Codec, s: State, events: seq<Event>)
    requires s.store.decoded == Lru.Cache([], map[])
    ensures Run(c, s, events).store.decoded == Lru.Replay(160, CacheOps(c, s, events))
  {
    hide Next;
    RunAppliesCacheOps(c, s, events, []);
    assert [] + CacheOps(c, s, events) == CacheOps(c, s, events);
  }

  /** What a run has touched after two passes. */
  lemma TwoPassesTouch(c: Codec, disk: map<Path, Bytes>, before: seq<Event>, gets: seq<seq<Event>>, file: seq<Sha>,
                       more: seq<seq<Event>>, next: seq<Sha>)
    requires Pass(c, Run(c, Init(disk), before), gets, file)
    requires Pass(c, Run(c, Init(disk), before + Flatten(gets)), more, next)
    ensures var events := before + Flatten(gets) + Flatten(more);
            Lru.Touches(160, CacheOps(c, Init(disk), events))
            == Lru.Touches(160, CacheOps(c, Init(disk), before)) + file + next
  {
    hide Lru.Replay, Lru.Touches, Run, CacheOps, Pass;
    var s := Init(disk);
    var s1, s2 := Run(c, s, before), Run(c, s, before + Flatten(gets));
    var ops := CacheOps(c, s, before);
    EmptyReplay(c, s, before);
    RunConcat(c, s, before, Flatten(gets));
    RunConcat(c, s, before + Flatten(gets), Flatten(more));
    PassTouches(c, s1, gets, file, ops);
    RunAppliesCacheOps(c, s1, Flatten(gets), ops);
    PassTouches(c, s2, more, next, ops + CacheOps(c, s1, Flatten(gets)));
  }

  // ---- Re-reading and cycling ----

  /** The first step of a `get` serves it from memory. */
  ghost predicate ServedFromMemory(c: Codec, s: State, sha: Sha) {
    forall a :: ServedAt(Next(c, Next(c, s, Spawn(Get, sha)), Step(|s.tasks|, a)), |s.tasks|)
  }

  lemma HitIffInMemory(c: Codec, s: State, sha: Sha)
    ensures ServedFromMemory(c, s, sha) <==> Lru.Lookup(s.store.decoded, sha).Some?
  {
    hide EncodeFrameAs, DecodeFrame, Lru.Put, Lru.Promote, Lawful, Live, ChunkLock;
    var spawned := Next(c, s, Spawn(Get, sha));
    assert spawned.tasks[|s.tasks|] == Task(Get, sha, Start, None) && spawned.store == s.store;
    assert ServedFromMemory(c, s, sha) ==> ServedAt(Next(c, spawned, Step(|s.tasks|, Fine)), |s.tasks|);
  }

  /** So does the check a `get` makes once it has the lock: one that waited for another to load the
      chunk touches neither the disk nor the inner store. */
  lemma HitUnderLockIff(c: Codec, s: State, t: nat)
    requires t < |s.tasks| && s.tasks[t].kind.Get? && s.tasks[t].pc.Recheck?
    ensures var hit := Lru.Lookup(s.store.decoded, s.tasks[t].sha);
            && (hit.Some? <==> forall a :: Next(c, s, Step(t, a)).tasks[t].pc.Unlock?)
            && (hit.Some? ==>
                  forall a :: Next(c, s, Step(t, a)).tasks[t].pc == Unlock(Served(hit.value))
                              && Next(c, s, Step(t, a)).store.disk == s.store.disk)
  {
    hide EncodeFrameAs, DecodeFrame, Lru.Put, Lru.Promote, Lawful, Live, ChunkLock;
    assert Next(c, s, Step(t, Fine)).tasks[t].pc.Unlock? ==> Lru.Lookup(s.store.decoded, s.tasks[t].sha).Some?;
  }

  /** The checks of an `ensure` look at the file and nothing else: a chunk in memory does not make up for
      a file that has gone. */
  lemma EnsurePassesIff(c: Codec, s: State, t: nat, a: Answer)
    requires t < |s.tasks| && s.tasks[t].kind.Ensure? && (s.tasks[t].pc.Start? || s.tasks[t].pc.Recheck?)
    ensures var there := Chunk(s.tasks[t].sha) in s.store.disk && !a.Unreadable?;
            var pc := Next(c, s, Step(t, a)).tasks[t].pc;
            && (there <==> pc == if s.tasks[t].pc.Start? then Finished(Ensured) else Unlock(Ensured))
            && (!there <==> pc == if s.tasks[t].pc.Start? then NeedLock else Fetch)
            && Next(c, s, Step(t, a)).store == s.store
  {
    hide EncodeFrameAs, DecodeFrame, Lru.Put, Lru.Promote, Lawful, Live, ChunkLock;
  }

  /** What has been read or downloaded is in memory when the lock is released, for an `ensure` too. */
  lemma LoadIsRemembered(c: Codec, s: State, t: nat, a: Answer)
    requires t < |s.tasks| && s.tasks[t].pc.Remember? && Lru.Valid(s.store.decoded, 160)
    ensures var k, s' := s.tasks[t], Next(c, s, Step(t, a));
            && Lru.Lookup(s'.store.decoded, k.sha) == Some(k.pc.loaded)
            && s'.tasks[t].pc == Unlock(if k.kind.Get? then Served(k.pc.loaded) else Ensured)
  {
    hide EncodeFrameAs, DecodeFrame, Lru.Put, Lru.Promote, Lawful, Live, ChunkLock;
    Lru.PutValid(s.store.decoded, 160, s.tasks[t].sha, s.tasks[t].pc.loaded);
  }

  /** After a pass over a file of at most 160 distinct chunks, and while it is read again, in any
      order and however often, every `get` of its chunks is served from memory. */
  lemma RereadIsFromMemory(c: Codec, disk: map<Path, Bytes>, before: seq<Event>, gets: seq<seq<Event>>, file: seq<Sha>,
                           again: seq<seq<Event>>, reread: seq<Sha>, sha: Sha)
    requires Pass(c, Run(c, Init(disk), before), gets, file)
    requires Pass(c, Run(c, Init(disk), before + Flatten(gets)), again, reread)
    requires |Lru.Elements(file)| <= 160 && Lru.Elements(reread) <= Lru.Elements(file) && sha in file
    ensures ServedFromMemory(c, Run(c, Init(disk), before + Flatten(gets) + Flatten(again)), sha)
  {
    hide Run, CacheOps, Lru.Touches, Pass, ServedFromMemory, Lru.Since, Lru.Elements;
    var events := before + Flatten(gets) + Flatten(again);
    TwoPassesTouch(c, disk, before, gets, file, again, reread);
    Lru.RereadDistance(Lru.Touches(160, CacheOps(c, Init(disk), before)), file, reread, sha);
    InMemoryIffRecentlyTouched(c, disk, events, sha);
    HitIffInMemory(c, Run(c, Init(disk), events), sha);
  }

  /** Reading more than 160 distinct chunks round and round never hits after the first pass: when
      a chunk's turn comes again it has been dropped. */
  lemma CycleIsNeverFromMemory(c: Codec, disk: map<Path, Bytes>, before: seq<Event>, gets: seq<seq<Event>>,
                               file: seq<Sha>, again: seq<seq<Event>>, i: nat)
    requires Lru.Distinct(file) && |file| > 160 && i < |file|
    requires Pass(c, Run(c, Init(disk), before), gets, file)
    requires Pass(c, Run(c, Init(disk), before + Flatten(gets)), again, file[..i])
    ensures !ServedFromMemory(c, Run(c, Init(disk), before + Flatten(gets) + Flatten(again)), file[i])
  {
    hide Run, CacheOps, Lru.Touches, Pass, ServedFromMemory, Lru.Since, Lru.Elements, Lru.Distinct;
    var events := before + Flatten(gets) + Flatten(again);
    TwoPassesTouch(c, disk, before, gets, file, again, file[..i]);
    Lru.CycleDistance(Lru.Touches(160, CacheOps(c, Init(disk), before)), file, i);
    InMemoryIffRecentlyTouched(c, disk, events, file[i]);
    HitIffInMemory(c, Run(c, Init(disk), events), file[i]);
  }
}
