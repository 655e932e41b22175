/** What the chunk cache serves is what was asked for: every served or remembered byte string
    hashes to its chunk's name, although the inner store may answer anything and files may be
    deleted, corrupted or swapped at any time. */
module ChunkCacheIntegrity {
  import opened Prelude
  import opened Frame
  import opened ChunkNames
  import opened ChunkCache
  import opened ChunkCacheFiles
  import Lru

  /** If the file decodes at all, the bytes in it are the ones its header was made for. This is
      what the content checksum of a frame buys: corruption does not decode. */
  ghost predicate HonestFile(c: Codec, file: Bytes) {
    match DecodeFrame(c, file)
    case Some((claimed, plain)) => c.sha1(plain) == claimed
    case None => true
  }

  /** The outside world may plant any file that does not decode, or any honest frame, also of
      another chunk. */
  ghost predicate HonestEvent(c: Codec, e: Event) {
    e.Replace? ==> HonestFile(c, e.bytes)
  }

  ghost predicate StoreOk(c: Codec, s: Store) {
    && Lru.Valid(s.decoded, Lru.DECODED_CACHE_ENTRIES)
    && (forall sha | sha in s.decoded.values :: c.sha1(s.decoded.values[sha]) == sha)
    && (forall sha | Chunk(sha) in s.disk :: HonestFile(c, s.disk[Chunk(sha)]))
  }

  predicate OutcomeOk(c: Codec, sha: Sha, out: Outcome) {
    out.Served? ==> c.sha1(out.bytes) == sha
  }

  ghost predicate AnswerOk(c: Codec, k: Task) {
    match k.pc
    case Remember(loaded) => c.sha1(loaded) == k.sha
    case Unlock(out) => OutcomeOk(c, k.sha, out)
    case DropLock(out) => OutcomeOk(c, k.sha, out)
    case Finished(out) => OutcomeOk(c, k.sha, out)
    case _ => true
  }

  ghost predicate Trustworthy(c: Codec, s: State) {
    && StoreOk(c, s.store)
    && (forall t | 0 <= t < |s.tasks| :: AnswerOk(c, s.tasks[t]))
  }

  lemma CompleteFramesAreHonest(c: Codec, sha: Sha, file: Bytes)
    requires CompleteFrame(c, sha, file)
    ensures HonestFile(c, file)
  {
    var plain: Buffer :| c.sha1(plain) == sha && file == EncodeFrame(c, plain);
    hide DecodeFrame, EncodeFrame;
    if |plain| <= 67_108_864 {
      RoundTripIff(c, plain);
    } else {
      OversizedDoesNotDecode(c, plain);
    }
  }

  lemma WorkKeepsCache(c: Codec, s: Store, k: Task, a: Answer)
    requires StoreOk(c, s) && AnswerOk(c, k)
    ensures var decoded := Work(c, s, k, a).0.decoded;
            && Lru.Valid(decoded, Lru.DECODED_CACHE_ENTRIES)
            && (forall sha | sha in decoded.values :: c.sha1(decoded.values[sha]) == sha)
  {
    hide EncodeFrameAs, DecodeFrame, Lru.Put, Lru.Promote, Lru.Valid, Lawful, HonestFile;
    Lru.PromoteValid(s.decoded, Lru.DECODED_CACHE_ENTRIES, k.sha);
    if k.pc.Remember? {
      Lru.PutValid(s.decoded, Lru.DECODED_CACHE_ENTRIES, k.sha, k.pc.loaded);
      var decoded := Lru.Put(s.decoded, Lru.DECODED_CACHE_ENTRIES, k.sha, k.pc.loaded);
      forall sha | sha in decoded.values ensures c.sha1(decoded.values[sha]) == sha {
        if sha != k.sha {
          assert Lru.Lookup(decoded, sha) == Lru.Lookup(s.decoded, sha);
        } else {
          assert Lru.Lookup(decoded, sha) == Some(k.pc.loaded);
        }
      }
    }
  }

  lemma WorkKeepsFilesHonest(c: Codec, s: Store, k: Task, a: Answer)
    requires StoreOk(c, s) && WriterOk(c, s, k)
    ensures forall sha | Chunk(sha) in Work(c, s, k, a).0.disk ::
              HonestFile(c, Work(c, s, k, a).0.disk[Chunk(sha)])
  {
    hide Work, HonestFile, CompleteFrame, WriterOk;
    forall sha | Chunk(sha) in Work(c, s, k, a).0.disk
      ensures HonestFile(c, Work(c, s, k, a).0.disk[Chunk(sha)])
    {
      WorkPublishesFrames(c, s, k, a, sha);
      var file := Work(c, s, k, a).0.disk[Chunk(sha)];
      if CompleteFrame(c, sha, file) {
        CompleteFramesAreHonest(c, sha, file);
      }
    }
  }

  lemma WorkAnswersHonestly(c: Codec, s: Store, k: Task, a: Answer)
    requires StoreOk(c, s) && AnswerOk(c, k) && WriterOk(c, s, k)
    ensures AnswerOk(c, k.(pc := Work(c, s, k, a).1))
  {
    hide EncodeFrameAs, DecodeFrame, Write, Lru.Put, Lru.Promote, Lru.Valid, Lawful;
    if k.pc.ReadDisk? && Chunk(k.sha) in s.disk {
      assert HonestFile(c, s.disk[Chunk(k.sha)]);
    }
  }

  lemma WorkKeepsStore(c: Codec, s: Store, k: Task, a: Answer)
    requires StoreOk(c, s) && AnswerOk(c, k) && WriterOk(c, s, k)
    ensures StoreOk(c, Work(c, s, k, a).0)
  {
    hide Work, HonestFile, WriterOk, AnswerOk;
    WorkKeepsCache(c, s, k, a);
    WorkKeepsFilesHonest(c, s, k, a);
  }

  lemma OutsideKeepsStore(c: Codec, s: State, e: Event)
    requires StoreOk(c, s.store) && HonestEvent(c, e) && (e.Step? ==> e.task >= |s.tasks|)
    ensures StoreOk(c, Next(c, s, e).store)
  {
    hide DecodeFrame, HonestFile;
  }

  lemma NextKeepsTrust(c: Codec, s: State, e: Event)
    requires Trustworthy(c, s) && WritersOk(c, s) && HonestEvent(c, e)
    ensures Trustworthy(c, Next(c, s, e))
  {
    hide Work, StoreOk, WriterOk;
    if e.Step? && e.task < |s.tasks| {
      var k := s.tasks[e.task];
      assert StoreOk(c, Work(c, s.store, k, e.answer).0) by {
        WorkKeepsStore(c, s.store, k, e.answer);
      }
      WorkAnswersHonestly(c, s.store, k, e.answer);
    } else {
      OutsideKeepsStore(c, s, e);
    }
  }

  lemma {:induction false} RunKeepsTrust(c: Codec, s: State, events: seq<Event>)
    requires Trustworthy(c, s) && WritersOk(c, s)
    requires forall e | e in events :: HonestEvent(c, e)
    ensures Trustworthy(c, Run(c, s, events))
    decreases |events|
  {
    if events != [] {
      hide Next, Trustworthy, WritersOk, HonestEvent;
      NextKeepsTrust(c, s, events[0]);
      NextKeepsWriters(c, s, events[0]);
      RunKeepsTrust(c, Next(c, s, events[0]), events[1..]);
    }
  }

  /** Every answer of `get`, and every remembered chunk, hashes to the name it goes by; and no
      more than 160 chunks are remembered. */
  lemma ServedBytesHashToTheirName(c: Codec, disk: map<Path, Bytes>, events: seq<Event>)
    requires forall sha | Chunk(sha) in disk :: HonestFile(c, disk[Chunk(sha)])
    requires forall e | e in events :: HonestEvent(c, e)
    ensures var s := Run(c, Init(disk), events);
            && (forall t | 0 <= t < |s.tasks| && s.tasks[t].pc.Finished? && s.tasks[t].pc.out.Served? ::
                  c.sha1(s.tasks[t].pc.out.bytes) == s.tasks[t].sha)
            && (forall sha | sha in s.store.decoded.values :: c.sha1(s.store.decoded.values[sha]) == sha)
            && |s.store.decoded.order| <= 160
  {
    RunKeepsTrust(c, Init(disk), events);
    var s := Run(c, Init(disk), events);
    forall t | 0 <= t < |s.tasks| && s.tasks[t].pc.Finished? && s.tasks[t].pc.out.Served?
      ensures c.sha1(s.tasks[t].pc.out.bytes) == s.tasks[t].sha
    {
      assert AnswerOk(c, s.tasks[t]);
    }
  }

  // ---- The decoded cache of a run, and what the recency theorems say about it ----

  /** What an event does to the decoded cache, if anything. */
  function CacheOp(s: State, e: Event): seq<Lru.Op> {
    if !e.Step? || e.task >= |s.tasks| then []
    else
      var k := s.tasks[e.task];
      match k.pc
      case Start => if k.kind.Get? then [Lru.Get(k.sha)] else []
      case Recheck => if k.kind.Get? then [Lru.Get(k.sha)] else []
      case Remember(loaded) => [Lru.Insert(k.sha, loaded)]
      case _ => []
  }

  function CacheOps(c: Codec, s: State, events: seq<Event>): seq<Lru.Op>
    decreases |events|
  {
    if events == [] then [] else CacheOp(s, events[0]) + CacheOps(c, Next(c, s, events[0]), events[1..])
  }

  /** Without a cache operation the cache stays; with one, that operation is applied. */
  lemma NextAppliesCacheOp(c: Codec, s: State, e: Event)
    ensures var op := CacheOp(s, e);
            Next(c, s, e).store.decoded ==
              if op == [] then s.store.decoded
              else Lru.Apply(s.store.decoded, Lru.DECODED_CACHE_ENTRIES, op[0])
    ensures |CacheOp(s, e)| <= 1
  {
    hide EncodeFrameAs, DecodeFrame, Lru.Put, Lawful, Live, ChunkLock;
  }

  lemma ReplayAppends(ops: seq<Lru.Op>, op: seq<Lru.Op>)
    requires |op| <= 1
    ensures var before := Lru.Replay(Lru.DECODED_CACHE_ENTRIES, ops);
            Lru.Replay(Lru.DECODED_CACHE_ENTRIES, ops + op) ==
              if op == [] then before else Lru.Apply(before, Lru.DECODED_CACHE_ENTRIES, op[0])
  {
    if op == [] {
      assert ops + op == ops;
    } else {
      assert (ops + op)[..|ops|] == ops && (ops + op)[|ops|] == op[0];
    }
  }

  lemma {:induction false} RunAppliesCacheOps(c: Codec, s: State, events: seq<Event>, ops: seq<Lru.Op>)
    requires s.store.decoded == Lru.Replay(Lru.DECODED_CACHE_ENTRIES, ops)
    ensures Run(c, s, events).store.decoded
         == Lru.Replay(Lru.DECODED_CACHE_ENTRIES, ops + CacheOps(c, s, events))
    decreases |events|
  {
    if events == [] {
      assert ops + CacheOps(c, s, events) == ops;
    } else {
      hide Next, CacheOp, Lru.Replay;
      var s' := Next(c, s, events[0]);
      var first, rest := CacheOp(s, events[0]), CacheOps(c, s', events[1..]);
      NextAppliesCacheOp(c, s, events[0]);
      ReplayAppends(ops, first);
      RunAppliesCacheOps(c, s', events[1..], ops + first);
      ConcatAssociative(ops, first, rest);
      assert CacheOps(c, s, events) == first + rest;
      assert Run(c, s, events) == Run(c, s', events[1..]);
    }
  }

  /** In any reachable state a chunk is in memory if and only if it was touched and fewer than
      160 distinct other chunks have been touched since, whoever touched them. */
  lemma InMemoryIffRecentlyTouched(c: Codec, disk: map<Path, Bytes>, events: seq<Event>, sha: Sha)
    ensures var touched := Lru.Touches(160, CacheOps(c, Init(disk), events));
            Lru.Lookup(Run(c, Init(disk), events).store.decoded, sha).Some? <==>
            && sha in touched
            && |Lru.Elements(Lru.Since(touched, sha))| < 160
  {
    var ops := CacheOps(c, Init(disk), events);
    RunAppliesCacheOps(c, Init(disk), events, []);
    assert [] + ops == ops;
    Lru.HeldIffRecentlyTouched(160, ops, sha);
  }
}
