/** `get_or_fetch` of the manifest cache as a transition system: any number of callers, one lock
    per key that is taken out of the table by the caller that saves, while others may still be
    waiting on it and newcomers make a new one. */
module ManifestCache {
  import opened Prelude

  datatype Key = Key(app: nat, depot: nat, gid: nat)

  /** A parsed manifest: the ids it carries, and the rest. */
  datatype Manifest = Manifest(depot: nat, gid: nat, body: nat)

  /** A cache file that decodes, or one that does not. */
  datatype File = Good(manifest: Manifest) | Bad

  datatype Outcome = Loaded(manifest: Manifest) | Failed

  datatype Pc =
    | FirstLoad
    | FirstDiscard                        // found an undecodable file, about to remove it
    | TakeLock
    | Waiting
    | SecondLoad                          // under the lock from here
    | SecondDiscard
    | Fetch
    | WriteTemp(fetched: Manifest)
    | RenameTemp(fetched: Manifest)
    | Forget(fetched: Manifest)           // takes the key's lock out of the table
    | Unlock(out: Outcome)
    | Finished(out: Outcome)

  datatype Task = Task(key: Key, pc: Pc, lock: Option<nat>)

  /** `saves` and `completed` are history variables, with one entry per completed rename: the file
      saved, and the key whose caller fetched and saved. */
  datatype Store = Store(files: map<Key, File>, temps: map<Key, File>, saves: multiset<Key>,
                         completed: multiset<Key>)

  datatype State = State(
    tasks: seq<Task>,
    inFlight: map<Key, nat>,
    nextLock: nat,
    held: map<nat, nat>,
    store: Store)

  /** What a step meets; a write can also be torn: it fails after the file has been truncated. */
  datatype Answer = Fine | Refused | Torn | Fetched(manifest: Manifest)

  datatype Event =
    | Spawn(key: Key)
    | Step(task: nat, answer: Answer)
    | Outside(key: Key, file: Option<File>)

  function Init(files: map<Key, File>): State {
    State([], map[], 0, map[], Store(files, map[], multiset{}, multiset{}))
  }

  // ---- The lock table ----

  predicate HoldsLockObject(pc: Pc) {
    !pc.FirstLoad? && !pc.FirstDiscard? && !pc.TakeLock? && !pc.Finished?
  }

  predicate InSection(pc: Pc) {
    HoldsLockObject(pc) && !pc.Waiting?
  }

  predicate MovesLocks(pc: Pc) {
    pc.TakeLock? || pc.Waiting? || pc.Forget? || pc.Unlock?
  }

  function Take(s: State, t: nat): State
    requires t < |s.tasks|
  {
    var k := s.tasks[t];
    if k.key in s.inFlight then
      s.(tasks := s.tasks[t := k.(pc := Waiting, lock := Some(s.inFlight[k.key]))])
    else
      s.(inFlight := s.inFlight[k.key := s.nextLock], nextLock := s.nextLock + 1,
         tasks := s.tasks[t := k.(pc := Waiting, lock := Some(s.nextLock))])
  }

  function Acquire(s: State, t: nat): State
    requires t < |s.tasks|
  {
    match s.tasks[t].lock
    case Some(lock) =>
      if lock in s.held then s
      else s.(held := s.held[lock := t], tasks := s.tasks[t := s.tasks[t].(pc := SecondLoad)])
    case None => s
  }

  /** Others may still be waiting on the lock object that leaves the table here. */
  function ForgetLock(s: State, t: nat, m: Manifest): State
    requires t < |s.tasks|
  {
    var k := s.tasks[t];
    s.(inFlight := s.inFlight - {k.key}, tasks := s.tasks[t := k.(pc := Unlock(Loaded(m)))])
  }

  function Release(s: State, t: nat, out: Outcome): State
    requires t < |s.tasks|
  {
    var held := match s.tasks[t].lock case Some(lock) => s.held - {lock} case None => s.held;
    s.(held := held, tasks := s.tasks[t := s.tasks[t].(pc := Finished(out), lock := None)])
  }

  // ---- The files ----

  /** Where a manifest is saved: under the caller's app, but the ids the manifest itself carries. */
  function SavedAs(key: Key, m: Manifest): Key {
    Key(key.app, m.depot, m.gid)
  }

  predicate Fails(a: Answer) {
    a.Refused? || a.Torn?
  }

  /** `load` up to the decode: a file that does not decode is still to be removed. */
  function Load(s: Store, k: Task, a: Answer): Pc {
    var first := k.pc.FirstLoad?;
    if Fails(a) then if first then Finished(Failed) else Unlock(Failed)
    else if k.key !in s.files then if first then TakeLock else Fetch
    else
      match s.files[k.key]
      case Good(m) => if first then Finished(Loaded(m)) else Unlock(Loaded(m))
      case Bad => if first then FirstDiscard else SecondDiscard
  }

  /** Removing the file fails if it is gone already, and removes whatever is there otherwise. */
  function Discard(s: Store, k: Task, a: Answer): (Store, Pc) {
    var first := k.pc.FirstDiscard?;
    if Fails(a) || k.key !in s.files then (s, if first then Finished(Failed) else Unlock(Failed))
    else (s.(files := s.files - {k.key}), if first then TakeLock else Fetch)
  }

  /** A failed write may leave the temporary file as it was, or without its end. */
  function Write(s: Store, k: Task, m: Manifest, a: Answer): (Store, Pc) {
    var path := SavedAs(k.key, m);
    match a
    case Refused => (s, Unlock(Failed))
    case Torn => (s.(temps := s.temps[path := Bad]), Unlock(Failed))
    case _ => (s.(temps := s.temps[path := Good(m)]), RenameTemp(m))
  }

  function Rename(s: Store, k: Task, m: Manifest, a: Answer): (Store, Pc) {
    var path := SavedAs(k.key, m);
    if Fails(a) || path !in s.temps then (s, Unlock(Failed))
    else
      (Store(s.files[path := s.temps[path]], s.temps - {path}, s.saves + multiset{path},
             s.completed + multiset{k.key}),
       Forget(m))
  }

  function Work(s: Store, k: Task, a: Answer): (Store, Pc) {
    match k.pc
    case FirstLoad => (s, Load(s, k, a))
    case FirstDiscard => Discard(s, k, a)
    case SecondLoad => (s, Load(s, k, a))
    case SecondDiscard => Discard(s, k, a)
    case Fetch => (s, if a.Fetched? then WriteTemp(a.manifest) else Unlock(Failed))
    case WriteTemp(m) => Write(s, k, m, a)
    case RenameTemp(m) => Rename(s, k, m, a)
    case _ => (s, k.pc)
  }

  // ---- Runs ----

  function Advance(s: State, t: nat, a: Answer): State
    requires t < |s.tasks|
  {
    match s.tasks[t].pc
    case TakeLock => Take(s, t)
    case Waiting => Acquire(s, t)
    case Forget(m) => ForgetLock(s, t, m)
    case Unlock(out) => Release(s, t, out)
    case _ =>
      var (store, pc) := Work(s.store, s.tasks[t], a);
      s.(store := store, tasks := s.tasks[t := s.tasks[t].(pc := pc)])
  }

  function Next(s: State, e: Event): State {
    match e
    case Spawn(key) => s.(tasks := s.tasks + [Task(key, FirstLoad, None)])
    case Step(t, a) => if t < |s.tasks| then Advance(s, t, a) else s
    case Outside(key, file) =>
      s.(store := s.store.(files := match file
                                    case None => s.store.files - {key}
                                    case Some(f) => s.store.files[key := f]))
  }

  function Run(s: State, events: seq<Event>): State
    decreases |events|
  {
    if events == [] then s else Run(Next(s, events[0]), events[1..])
  }

  // ---- What is said of a run ----

  /** A call for the key has returned. */
  predicate Done(s: State, key: Key, t: nat) {
    t < |s.tasks| && s.tasks[t].key == key && s.tasks[t].pc.Finished?
  }

  /** Which manifests a fetch for a key may bring. Nothing makes a fetch bring the ids it was asked
      for, and the cache does not compare them. */
  type Fetches = (Key, Manifest) -> bool

  /** Every manifest a fetch for `key` may bring carries the key's ids. */
  ghost predicate BringsOwn(may: Fetches, key: Key) {
    forall m | may(key, m) :: SavedAs(key, m) == key
  }

  /** No fetch for another key may bring a manifest that is saved under `key`. */
  ghost predicate OthersApart(may: Fetches, key: Key) {
    forall k, m | k != key && may(k, m) :: SavedAs(k, m) != key
  }

  ghost predicate BringsNothing(may: Fetches, key: Key) {
    forall m :: !may(key, m)
  }

  /** Fetches bring what they may, and nobody outside touches the file of `key`. Anything may be
      refused. */
  predicate Admissible(s: State, e: Event, key: Key, may: Fetches) {
    match e
    case Spawn(_) => true
    case Step(t, a) => t < |s.tasks| && s.tasks[t].pc.Fetch? && a.Fetched? ==> may(s.tasks[t].key, a.manifest)
    case Outside(other, _) => other != key
  }

  ghost predicate AllAdmissible(s: State, events: seq<Event>, key: Key, may: Fetches)
    decreases |events|
  {
    events == []
    || (Admissible(s, events[0], key, may) && AllAdmissible(Next(s, events[0]), events[1..], key, may))
  }

  /** For the tasks of `key` nothing fails, and fetches deliver. */
  predicate Delivers(k: Task, a: Answer, key: Key) {
    k.key == key ==> !Fails(a) && (k.pc.Fetch? ==> a.Fetched?)
  }

  /** Admissible, and the calls for `key` are not let down. */
  predicate Helpful(s: State, e: Event, key: Key, may: Fetches) {
    && Admissible(s, e, key, may)
    && (e.Step? && e.task < |s.tasks| ==> Delivers(s.tasks[e.task], e.answer, key))
  }

  ghost predicate AllHelpful(s: State, events: seq<Event>, key: Key, may: Fetches)
    decreases |events|
  {
    events == [] || (Helpful(s, events[0], key, may) && AllHelpful(Next(s, events[0]), events[1..], key, may))
  }

  lemma {:induction false} HelpfulIsAdmissible(s: State, events: seq<Event>, key: Key, may: Fetches)
    requires AllHelpful(s, events, key, may)
    ensures AllAdmissible(s, events, key, may)
    decreases |events|
  {
    if events != [] {
      hide Next, Admissible;
      HelpfulIsAdmissible(Next(s, events[0]), events[1..], key, may);
    }
  }
}
