/** The single-flight chunk cache as a transition system. Any number of tasks run `get` and
    `ensure` over one shared directory; each event is one atomic step of one task, or something
    the outside world does to the directory. An event that is not enabled changes nothing, so
    every sequence of events is a run. */
module ChunkCache {
  import opened Prelude
  import opened Frame
  import opened ChunkNames
  import Lru

  datatype Kind = Get | Ensure

  datatype Outcome = Served(bytes: Bytes) | Ensured | Failed

  /** Where a task stands in `get` or `ensure`. */
  datatype Pc =
    | Start                                                  // first cache or existence check
    | NeedLock
    | Waiting                                                // holds the lock object, not the lock
    | Recheck                                                // second check, under the lock
    | ReadDisk
    | Discard                                                // deleting a corrupt file
    | Fetch
    | NameTemp(plain: Buffer)
    | CreateTemp(plain: Buffer, nonce: nat)
    | WriteTemp(plain: Buffer, nonce: nat, written: nat)
    | Publish(plain: Buffer, nonce: nat)
    | Remember(loaded: Bytes)
    | Unlock(out: Outcome)
    | DropLock(out: Outcome)
    | Finished(out: Outcome)

  datatype Task = Task(kind: Kind, sha: Sha, pc: Pc, lock: Option<nat>)

  /** What the load itself works on. `persisted` is a history variable: one entry per
      completed rename. */
  datatype Store = Store(
    decoded: Lru.Cache,
    disk: map<Path, Bytes>,
    writes: nat,
    persisted: multiset<Sha>)

  /** `loading` holds weak references: an entry whose lock object no task holds is dead.
      `held` maps a locked lock object to the task inside. */
  datatype State = State(
    tasks: seq<Task>,
    loading: map<Sha, nat>,
    nextLock: nat,
    held: map<nat, nat>,
    store: Store)

  /** What the operating system and the inner store say to a step. */
  datatype Answer = Fine | Unreadable | Refused | Fetched(bytes: Buffer) | Wrote(count: nat)

  datatype Event =
    | Spawn(kind: Kind, sha: Sha)
    | Step(task: nat, answer: Answer)
    | Remove(path: Path)
    | Replace(sha: Sha, bytes: Bytes)

  function Init(disk: map<Path, Bytes>): State {
    State([], map[], 0, map[], Store(Lru.Cache([], map[]), disk, 0, multiset{}))
  }

  // ---- The lock protocol ----

  predicate HoldsLockObject(pc: Pc) {
    !pc.Start? && !pc.NeedLock? && !pc.Finished?
  }

  /** Between acquiring the lock and releasing it. */
  predicate InSection(pc: Pc) {
    HoldsLockObject(pc) && !pc.Waiting? && !pc.DropLock?
  }

  predicate Live(s: State, lock: nat) {
    exists t | 0 <= t < |s.tasks| :: s.tasks[t].lock == Some(lock)
  }

  /** A weak entry that is still alive is upgraded; otherwise a new lock object replaces it. */
  function ChunkLock(loading: map<Sha, nat>, nextLock: nat, alive: bool, sha: Sha): (map<Sha, nat>, nat, nat)
    requires alive ==> sha in loading
  {
    if alive then (loading, nextLock, loading[sha])
    else (loading[sha := nextLock], nextLock + 1, nextLock)
  }

  function TakeLockObject(s: State, t: nat): State
    requires t < |s.tasks|
  {
    var k := s.tasks[t];
    var alive := k.sha in s.loading && Live(s, s.loading[k.sha]);
    var (loading, nextLock, lock) := ChunkLock(s.loading, s.nextLock, alive, k.sha);
    s.(loading := loading, nextLock := nextLock,
       tasks := s.tasks[t := k.(pc := Waiting, lock := Some(lock))])
  }

  function Acquire(s: State, t: nat): State
    requires t < |s.tasks|
  {
    match s.tasks[t].lock
    case Some(lock) =>
      if lock in s.held then s
      else s.(held := s.held[lock := t], tasks := s.tasks[t := s.tasks[t].(pc := Recheck)])
    case None => s
  }

  /** The guard is dropped before the lock object. */
  function Release(s: State, t: nat, out: Outcome): State
    requires t < |s.tasks|
  {
    var held := match s.tasks[t].lock case Some(lock) => s.held - {lock} case None => s.held;
    s.(held := held, tasks := s.tasks[t := s.tasks[t].(pc := DropLock(out))])
  }

  function Leave(s: State, t: nat, out: Outcome): State
    requires t < |s.tasks|
  {
    s.(tasks := s.tasks[t := s.tasks[t].(pc := Finished(out), lock := None)])
  }

  // ---- The load: one step of a task on the store, and where the task stands after it ----

  function Result(kind: Kind, plain: Bytes): Outcome {
    if kind.Get? then Served(plain) else Ensured
  }

  /** The existence check of `ensure`: a failed `stat` counts as absent. */
  predicate Exists(s: Store, sha: Sha, a: Answer) {
    Chunk(sha) in s.disk && !a.Unreadable?
  }

  /** The first check, and the same check again under the lock. */
  function Check(s: Store, k: Task, a: Answer): (Store, Pc) {
    var first := k.pc.Start?;
    if k.kind.Get? then
      match Lru.Lookup(s.decoded, k.sha)
      case Some(bytes) =>
        (s.(decoded := Lru.Promote(s.decoded, k.sha)),
         if first then Finished(Served(bytes)) else Unlock(Served(bytes)))
      case None => (s, if first then NeedLock else ReadDisk)
    else if Exists(s, k.sha, a) then (s, if first then Finished(Ensured) else Unlock(Ensured))
    else (s, if first then NeedLock else Fetch)
  }

  /** Reading is verifying: the file must decode, and claim to be the chunk it is filed as. */
  function ReadVerified(c: Codec, s: Store, sha: Sha, a: Answer): Pc {
    if Chunk(sha) !in s.disk || a.Unreadable? then Fetch
    else
      match DecodeFrame(c, s.disk[Chunk(sha)])
      case Some((claimed, plain)) => if claimed == sha then Remember(plain) else Discard
      case None => Discard
  }

  function DeleteCorrupt(s: Store, sha: Sha, a: Answer): Store {
    if a.Refused? then s else s.(disk := s.disk - {Chunk(sha)})
  }

  /** Bytes that do not hash to the chunk's name are refused. */
  function ReceiveFetch(c: Codec, sha: Sha, a: Answer): Pc {
    if a.Fetched? && c.sha1(a.bytes) == sha then NameTemp(a.bytes) else Unlock(Failed)
  }

  function Create(s: Store, temp: Path, a: Answer): Store {
    if a.Refused? then s else s.(disk := s.disk[temp := []])
  }

  /** One partial write always moves forward; a temporary file deleted meanwhile stays deleted. */
  function WriteEnd(frame: Bytes, written: nat, a: Answer): nat {
    Min(|frame|, written + Max(1, if a.Wrote? then a.count else |frame|))
  }

  function Write(s: Store, temp: Path, frame: Bytes, written: nat, a: Answer): Store
    requires written <= |frame|
  {
    if a.Refused? || temp !in s.disk then s
    else s.(disk := s.disk[temp := s.disk[temp] + frame[written..WriteEnd(frame, written, a)]])
  }

  function Rename(s: Store, sha: Sha, temp: Path): Store
    requires temp in s.disk
  {
    s.(disk := (s.disk - {temp})[Chunk(sha) := s.disk[temp]],
       persisted := s.persisted + multiset{sha})
  }

  function CacheDecoded(s: Store, sha: Sha, plain: Bytes): Store {
    s.(decoded := Lru.Put(s.decoded, Lru.DECODED_CACHE_ENTRIES, sha, plain))
  }

  function Work(c: Codec, s: Store, k: Task, a: Answer): (Store, Pc) {
    match k.pc
    case Start => Check(s, k, a)
    case Recheck => Check(s, k, a)
    case ReadDisk => (s, ReadVerified(c, s, k.sha, a))
    case Discard => (DeleteCorrupt(s, k.sha, a), Fetch)
    case Fetch => (s, ReceiveFetch(c, k.sha, a))
    case NameTemp(plain) => (s.(writes := s.writes + 1), CreateTemp(plain, s.writes))
    case CreateTemp(plain, nonce) =>
      (Create(s, Temp(k.sha, nonce), a), if a.Refused? then Unlock(Failed) else WriteTemp(plain, nonce, 0))
    case WriteTemp(plain, nonce, written) =>
      var frame := EncodeFrameAs(c, plain, k.sha);
      if a.Refused? || written > |frame| then (s, Unlock(Failed))
      else
        var end := WriteEnd(frame, written, a);
        (Write(s, Temp(k.sha, nonce), frame, written, a),
         if end == |frame| then Publish(plain, nonce) else WriteTemp(plain, nonce, end))
    case Publish(plain, nonce) =>
      var temp := Temp(k.sha, nonce);
      if a.Refused? || temp !in s.disk then (s, Unlock(Failed))
      else (Rename(s, k.sha, temp), Remember(plain))
    case Remember(plain) => (CacheDecoded(s, k.sha, plain), Unlock(Result(k.kind, plain)))
    case _ => (s, k.pc)
  }

  // ---- Runs ----

  /** The next step of task `t`. */
  function Advance(c: Codec, s: State, t: nat, a: Answer): State
    requires t < |s.tasks|
  {
    match s.tasks[t].pc
    case NeedLock => TakeLockObject(s, t)
    case Waiting => Acquire(s, t)
    case Unlock(out) => Release(s, t, out)
    case DropLock(out) => Leave(s, t, out)
    case _ =>
      var (store, pc) := Work(c, s.store, s.tasks[t], a);
      s.(store := store, tasks := s.tasks[t := s.tasks[t].(pc := pc)])
  }

  function Next(c: Codec, s: State, e: Event): State {
    match e
    case Spawn(kind, sha) => s.(tasks := s.tasks + [Task(kind, sha, Start, None)])
    case Step(t, a) => if t < |s.tasks| then Advance(c, s, t, a) else s
    case Remove(path) => s.(store := s.store.(disk := s.store.disk - {path}))
    case Replace(sha, bytes) => s.(store := s.store.(disk := s.store.disk[Chunk(sha) := bytes]))
  }

  function Run(c: Codec, s: State, events: seq<Event>): State
    decreases |events|
  {
    if events == [] then s else Run(c, Next(c, s, events[0]), events[1..])
  }
}
