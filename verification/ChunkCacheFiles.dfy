/** What ends up in the cache directory: temporary files have one writer, and only complete
    frames are published. Others may replace or delete chunk files, and delete temporary ones;
    only this cache writes those. */
module ChunkCacheFiles {
  import opened Prelude
  import opened Frame
  import opened ChunkNames
  import opened ChunkCache
  import Lru

  function Nonce(pc: Pc): Option<nat> {
    match pc
    case CreateTemp(_, nonce) => Some(nonce)
    case WriteTemp(_, nonce, _) => Some(nonce)
    case Publish(_, nonce) => Some(nonce)
    case _ => None
  }

  /** A writer's bytes hash to its chunk, its nonce has been handed out, and its temporary file,
      if nobody deleted it, holds exactly what it has written so far. */
  ghost predicate WriterOk(c: Codec, s: Store, k: Task) {
    match k.pc
    case NameTemp(plain) => c.sha1(plain) == k.sha
    case CreateTemp(plain, nonce) => c.sha1(plain) == k.sha && nonce < s.writes
    case WriteTemp(plain, nonce, written) =>
      var frame := EncodeFrameAs(c, plain, k.sha);
      && c.sha1(plain) == k.sha && nonce < s.writes && written <= |frame|
      && (Temp(k.sha, nonce) in s.disk ==> s.disk[Temp(k.sha, nonce)] == frame[..written])
    case Publish(plain, nonce) =>
      && c.sha1(plain) == k.sha && nonce < s.writes
      && (Temp(k.sha, nonce) in s.disk ==> s.disk[Temp(k.sha, nonce)] == EncodeFrameAs(c, plain, k.sha))
    case _ => true
  }

  ghost predicate WritersOk(c: Codec, s: State) {
    && (forall t | 0 <= t < |s.tasks| :: WriterOk(c, s.store, s.tasks[t]))
    && (forall t, u | 0 <= t < u < |s.tasks| && Nonce(s.tasks[t].pc).Some? ::
          Nonce(s.tasks[t].pc) != Nonce(s.tasks[u].pc))
  }

  predicate LeadsToWriting(pc: Pc) {
    pc.Fetch? || pc.NameTemp? || pc.CreateTemp? || pc.WriteTemp?
  }

  lemma OthersDoNotWrite(c: Codec, s: Store, k: Task, a: Answer)
    requires !LeadsToWriting(k.pc)
    ensures var pc := Work(c, s, k, a).1; Nonce(pc).None? && !pc.NameTemp?
  {
    hide EncodeFrameAs, DecodeFrame, Lru.Put, Lru.Promote, Lawful;
  }

  lemma StartKeepsWriter(c: Codec, s: Store, k: Task, a: Answer)
    requires WriterOk(c, s, k) && (k.pc.Fetch? || k.pc.NameTemp? || k.pc.CreateTemp?)
    ensures WriterOk(c, Work(c, s, k, a).0, k.(pc := Work(c, s, k, a).1))
  {
    hide EncodeFrameAs, DecodeFrame, Lru.Put, Lru.Promote, Lawful, Write, WriteEnd;
    if k.pc.CreateTemp? {
      assert EncodeFrameAs(c, k.pc.plain, k.sha)[..0] == [];
    }
  }

  lemma WriteKeepsWriter(c: Codec, s: Store, k: Task, a: Answer)
    requires WriterOk(c, s, k) && k.pc.WriteTemp?
    ensures WriterOk(c, Work(c, s, k, a).0, k.(pc := Work(c, s, k, a).1))
  {
    hide EncodeFrameAs, DecodeFrame, Lru.Put, Lru.Promote, Lawful;
    var frame, written := EncodeFrameAs(c, k.pc.plain, k.sha), k.pc.written;
    var end := WriteEnd(frame, written, a);
    assert frame[..written] + frame[written..end] == frame[..end];
    assert frame[..|frame|] == frame;
  }

  lemma WorkKeepsWriter(c: Codec, s: Store, k: Task, a: Answer)
    requires WriterOk(c, s, k)
    ensures WriterOk(c, Work(c, s, k, a).0, k.(pc := Work(c, s, k, a).1))
  {
    if k.pc.WriteTemp? {
      WriteKeepsWriter(c, s, k, a);
    } else if LeadsToWriting(k.pc) {
      StartKeepsWriter(c, s, k, a);
    } else {
      hide Work;
      OthersDoNotWrite(c, s, k, a);
    }
  }

  lemma WorkDrawsFreshNonces(c: Codec, s: Store, k: Task, a: Answer)
    ensures var nonce := Nonce(Work(c, s, k, a).1);
            nonce == None || nonce == Nonce(k.pc) || nonce == Some(s.writes)
  {
    hide EncodeFrameAs, DecodeFrame, Lru.Put, Lru.Promote, Lawful;
  }

  /** No step touches a temporary file another task is writing. */
  lemma WorkKeepsOtherWriters(c: Codec, s: Store, k: Task, a: Answer, other: Task)
    requires WriterOk(c, s, k) && WriterOk(c, s, other)
    requires Nonce(other.pc).Some? ==> Nonce(other.pc) != Nonce(k.pc)
    ensures WriterOk(c, Work(c, s, k, a).0, other)
    ensures Nonce(other.pc).Some? ==> Nonce(other.pc).value < s.writes
  {
    hide EncodeFrameAs, DecodeFrame, Lru.Put, Lru.Promote, Lawful;
    var s' := Work(c, s, k, a).0;
    if Nonce(other.pc).Some? {
      var temp := Temp(other.sha, Nonce(other.pc).value);
      assert temp in s'.disk ==> temp in s.disk && s'.disk[temp] == s.disk[temp];
    }
  }

  lemma IdleWriterOk(c: Codec, s: Store, k: Task)
    ensures Nonce(k.pc).None? && !k.pc.NameTemp? ==> WriterOk(c, s, k)
  {}

  lemma AdvanceKeepsWriters(c: Codec, s: State, t: nat, a: Answer)
    requires WritersOk(c, s) && t < |s.tasks|
    ensures WritersOk(c, Advance(c, s, t, a))
  {
    hide Work, WriterOk;
    var s', k := Advance(c, s, t, a), s.tasks[t];
    WorkKeepsWriter(c, s.store, k, a);
    WorkDrawsFreshNonces(c, s.store, k, a);
    forall u | 0 <= u < |s.tasks| && u != t
      ensures WriterOk(c, Work(c, s.store, k, a).0, s.tasks[u])
      ensures Nonce(s.tasks[u].pc).Some? ==> Nonce(s.tasks[u].pc).value < s.store.writes
    {
      WorkKeepsOtherWriters(c, s.store, k, a, s.tasks[u]);
    }
    forall u | 0 <= u < |s'.tasks| ensures WriterOk(c, s'.store, s'.tasks[u]) {
      assert s'.tasks[u].pc.Waiting? || s'.tasks[u].pc.Recheck? || s'.tasks[u].pc.DropLock? || s'.tasks[u].pc.Finished?
             || WriterOk(c, s'.store, s'.tasks[u]);
      IdleWriterOk(c, s'.store, s'.tasks[u]);
    }
  }

  lemma NextKeepsWriters(c: Codec, s: State, e: Event)
    requires WritersOk(c, s)
    ensures WritersOk(c, Next(c, s, e))
  {
    if e.Step? && e.task < |s.tasks| {
      AdvanceKeepsWriters(c, s, e.task, e.answer);
    } else {
      var s' := Next(c, s, e);
      forall u | 0 <= u < |s'.tasks| ensures WriterOk(c, s'.store, s'.tasks[u]) {
        if u < |s.tasks| {
          assert WriterOk(c, s.store, s.tasks[u]);
        }
      }
    }
  }

  lemma {:induction false} RunKeepsWriters(c: Codec, s: State, events: seq<Event>)
    requires WritersOk(c, s)
    ensures WritersOk(c, Run(c, s, events))
    decreases |events|
  {
    if events != [] {
      NextKeepsWriters(c, s, events[0]);
      RunKeepsWriters(c, Next(c, s, events[0]), events[1..]);
    }
  }

  /** Concurrent writers never share a temporary file, whatever chunks they write. */
  lemma WritersNeverCollide(c: Codec, disk: map<Path, Bytes>, events: seq<Event>, t: nat, u: nat)
    requires var s := Run(c, Init(disk), events);
             t < |s.tasks| && u < |s.tasks| && Nonce(s.tasks[t].pc).Some?
    ensures var s := Run(c, Init(disk), events);
            t != u ==> Nonce(s.tasks[t].pc) != Nonce(s.tasks[u].pc)
  {
    RunKeepsWriters(c, Init(disk), events);
    var s := Run(c, Init(disk), events);
    if t < u {
      assert Nonce(s.tasks[t].pc) != Nonce(s.tasks[u].pc);
    }
  }

  // ---- Only complete frames are published ----

  ghost predicate CompleteFrame(c: Codec, sha: Sha, file: Bytes) {
    exists plain: Buffer :: c.sha1(plain) == sha && file == EncodeFrame(c, plain)
  }

  /** A chunk file is one that was there before, one the outside world put there, or a whole
      frame of the chunk it is named after. */
  ghost predicate Explained(c: Codec, disk: map<Path, Bytes>, events: seq<Event>, sha: Sha, file: Bytes) {
    || (Chunk(sha) in disk && disk[Chunk(sha)] == file)
    || Replace(sha, file) in events
    || CompleteFrame(c, sha, file)
  }

  lemma WorkPublishesFrames(c: Codec, s: Store, k: Task, a: Answer, sha: Sha)
    requires WriterOk(c, s, k)
    requires Chunk(sha) in Work(c, s, k, a).0.disk
    ensures var file := Work(c, s, k, a).0.disk[Chunk(sha)];
            || (Chunk(sha) in s.disk && s.disk[Chunk(sha)] == file)
            || (CompleteFrame(c, sha, file) && sha == k.sha)
  {
    hide DecodeFrame;
    if k.pc.Publish? {
      assert EncodeFrameAs(c, k.pc.plain, k.sha) == EncodeFrame(c, k.pc.plain);
    }
  }

  lemma NextPublishesFrames(c: Codec, s: State, e: Event, sha: Sha)
    requires WritersOk(c, s) && Chunk(sha) in Next(c, s, e).store.disk
    ensures Explained(c, s.store.disk, [e], sha, Next(c, s, e).store.disk[Chunk(sha)])
  {
    if e.Step? && e.task < |s.tasks| {
      hide Work, WriterOk;
      var k := s.tasks[e.task];
      if Next(c, s, e).store != s.store {
        WorkPublishesFrames(c, s.store, k, e.answer, sha);
      }
    }
  }

  lemma {:induction false} RunPublishesFrames(c: Codec, s: State, events: seq<Event>, sha: Sha)
    requires WritersOk(c, s) && Chunk(sha) in Run(c, s, events).store.disk
    ensures Explained(c, s.store.disk, events, sha, Run(c, s, events).store.disk[Chunk(sha)])
    decreases |events|
  {
    if events != [] {
      hide Next, WritersOk, CompleteFrame;
      var s' := Next(c, s, events[0]);
      NextKeepsWriters(c, s, events[0]);
      RunPublishesFrames(c, s', events[1..], sha);
      assert events == [events[0]] + events[1..];
      if Chunk(sha) in s'.store.disk {
        NextPublishesFrames(c, s, events[0], sha);
      }
    }
  }

  /** No chunk path ever holds a half-written frame produced by the cache. */
  lemma OnlyCompleteFramesArePublished(c: Codec, disk: map<Path, Bytes>, events: seq<Event>, sha: Sha)
    requires Chunk(sha) in Run(c, Init(disk), events).store.disk
    ensures Explained(c, disk, events, sha, Run(c, Init(disk), events).store.disk[Chunk(sha)])
  {
    RunPublishesFrames(c, Init(disk), events, sha);
  }
}
