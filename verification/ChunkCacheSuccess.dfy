/** When calls succeed: with an inner store that delivers and a file system that obeys, every
    `get` is served and every `ensure` succeeds, whatever happens to the chunk files. */
module ChunkCacheSuccess {
  import opened Prelude
  import opened Frame
  import opened ChunkNames
  import opened ChunkCache
  import opened ChunkCacheFiles
  import Lru

  /** Fetches bring the chunk asked for, nothing but the deletion of corrupt files is refused, and
      nobody outside deletes temporary files. Chunk files may be deleted or replaced, and may be
      unreadable. */
  predicate Helpful(c: Codec, s: State, e: Event) {
    match e
    case Spawn(_, _) => true
    case Step(t, a) =>
      t < |s.tasks| ==>
        && (a.Refused? ==> s.tasks[t].pc.Discard?)
        && (s.tasks[t].pc.Fetch? ==> a.Fetched? && c.sha1(a.bytes) == s.tasks[t].sha)
    case Remove(path) => path.Chunk?
    case Replace(_, _) => true
  }

  ghost predicate AllHelpful(c: Codec, s: State, events: seq<Event>)
    decreases |events|
  {
    events == [] || (Helpful(c, s, events[0]) && AllHelpful(c, Next(c, s, events[0]), events[1..]))
  }

  /** What a call of either kind returns if it does not fail. */
  predicate Success(kind: Kind, out: Outcome) {
    match kind
    case Get => out.Served?
    case Ensure => out.Ensured?
  }

  predicate OnTrack(s: Store, k: Task) {
    match k.pc
    case WriteTemp(_, nonce, _) => Temp(k.sha, nonce) in s.disk
    case Publish(_, nonce) => Temp(k.sha, nonce) in s.disk
    case Unlock(out) => Success(k.kind, out)
    case DropLock(out) => Success(k.kind, out)
    case Finished(out) => Success(k.kind, out)
    case _ => true
  }

  ghost predicate AllOnTrack(s: State) {
    forall t | 0 <= t < |s.tasks| :: OnTrack(s.store, s.tasks[t])
  }

  lemma WorkStaysOnTrack(c: Codec, s: Store, k: Task, a: Answer)
    requires OnTrack(s, k) && WriterOk(c, s, k) && (a.Refused? ==> k.pc.Discard?)
    requires k.pc.Fetch? ==> a.Fetched? && c.sha1(a.bytes) == k.sha
    ensures OnTrack(Work(c, s, k, a).0, k.(pc := Work(c, s, k, a).1))
  {
    hide EncodeFrameAs, DecodeFrame, Lru.Put, Lru.Promote, Lru.Lookup, Lawful;
  }

  lemma WorkLeavesOtherTemps(c: Codec, s: Store, k: Task, a: Answer, other: Task)
    requires OnTrack(s, other) && (Nonce(other.pc).Some? ==> Nonce(other.pc) != Nonce(k.pc))
    ensures OnTrack(Work(c, s, k, a).0, other)
  {
    hide EncodeFrameAs, DecodeFrame, Lru.Put, Lru.Promote, Lru.Lookup, Lawful;
  }

  lemma AdvanceStaysOnTrack(c: Codec, s: State, t: nat, a: Answer)
    requires WritersOk(c, s) && AllOnTrack(s) && t < |s.tasks| && Helpful(c, s, Step(t, a))
    ensures AllOnTrack(Advance(c, s, t, a))
  {
    hide Work, WriterOk;
    var s', k := Advance(c, s, t, a), s.tasks[t];
    forall u | 0 <= u < |s'.tasks| ensures OnTrack(s'.store, s'.tasks[u]) {
      assert OnTrack(s.store, s.tasks[u]);
      if u != t {
        WorkLeavesOtherTemps(c, s.store, k, a, s.tasks[u]);
      } else {
        assert WriterOk(c, s.store, k);
        WorkStaysOnTrack(c, s.store, k, a);
      }
    }
  }

  lemma NextStaysOnTrack(c: Codec, s: State, e: Event)
    requires WritersOk(c, s) && AllOnTrack(s) && Helpful(c, s, e)
    ensures AllOnTrack(Next(c, s, e))
  {
    hide Advance, WriterOk;
    if e.Step? && e.task < |s.tasks| {
      AdvanceStaysOnTrack(c, s, e.task, e.answer);
    } else {
      var s' := Next(c, s, e);
      forall u | 0 <= u < |s'.tasks| ensures OnTrack(s'.store, s'.tasks[u]) {
        assert u < |s.tasks| ==> OnTrack(s.store, s.tasks[u]);
      }
    }
  }

  lemma {:induction false} RunStaysOnTrack(c: Codec, s: State, events: seq<Event>)
    requires WritersOk(c, s) && AllOnTrack(s) && AllHelpful(c, s, events)
    ensures AllOnTrack(Run(c, s, events))
    decreases |events|
  {
    if events != [] {
      hide Next, WritersOk, AllOnTrack, Helpful;
      NextKeepsWriters(c, s, events[0]);
      NextStaysOnTrack(c, s, events[0]);
      RunStaysOnTrack(c, Next(c, s, events[0]), events[1..]);
    }
  }

  /** No call fails unless the inner store or the file system let it down: damaged, deleted and
      planted chunk files, evictions and contention never make one fail. */
  lemma CallsSucceed(c: Codec, disk: map<Path, Bytes>, events: seq<Event>, t: nat)
    requires AllHelpful(c, Init(disk), events)
    requires var s := Run(c, Init(disk), events); t < |s.tasks| && s.tasks[t].pc.Finished?
    ensures var k := Run(c, Init(disk), events).tasks[t];
            if k.kind.Get? then k.pc.out.Served? else k.pc.out == Ensured
  {
    hide Next;
    RunStaysOnTrack(c, Init(disk), events);
    assert OnTrack(Run(c, Init(disk), events).store, Run(c, Init(disk), events).tasks[t]);
  }
}
