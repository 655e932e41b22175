/** At most one save per manifest, and one manifest for all callers, as long as the fetches for the
    key, and only they, bring what is saved under it. */
module ManifestCacheOnce {
  import opened Prelude
  import opened ManifestCache

  // ---- Locks ----

  ghost predicate TaskLockOk(s: State, t: nat)
    requires t < |s.tasks|
  {
    var k := s.tasks[t];
    && (k.lock.Some? <==> HoldsLockObject(k.pc))
    && (k.lock.Some? ==> k.lock.value < s.nextLock)
    && (InSection(k.pc) ==> k.lock.value in s.held && s.held[k.lock.value] == t)
  }

  ghost predicate HolderOk(s: State, lock: nat)
    requires lock in s.held
  {
    var t := s.held[lock];
    lock < s.nextLock && t < |s.tasks| && s.tasks[t].lock == Some(lock) && InSection(s.tasks[t].pc)
  }

  /** Tasks in the section hold their lock, and a held lock's task is in the section. */
  ghost predicate LocksOk(s: State) {
    && (forall t | 0 <= t < |s.tasks| :: TaskLockOk(s, t))
    && (forall lock | lock in s.held :: HolderOk(s, lock))
    && (forall key | key in s.inFlight :: s.inFlight[key] < s.nextLock)
  }

  lemma WorkStaysOnItsSide(s: Store, k: Task, a: Answer)
    requires !MovesLocks(k.pc)
    ensures HoldsLockObject(Work(s, k, a).1) == HoldsLockObject(k.pc)
    ensures InSection(Work(s, k, a).1) == InSection(k.pc)
  {}

  lemma LockStepKeepsLocks(s: State, t: nat, a: Answer)
    requires LocksOk(s) && t < |s.tasks| && MovesLocks(s.tasks[t].pc)
    ensures LocksOk(Advance(s, t, a))
  {
    hide Work;
    var s' := Advance(s, t, a);
    assert TaskLockOk(s, t);
    forall u | 0 <= u < |s'.tasks| ensures TaskLockOk(s', u) {
      assert TaskLockOk(s, u);
    }
    forall lock | lock in s'.held ensures HolderOk(s', lock) {
      if lock in s.held {
        assert HolderOk(s, lock);
      }
    }
  }

  lemma NextKeepsLocks(s: State, e: Event)
    requires LocksOk(s)
    ensures LocksOk(Next(s, e))
  {
    hide Work;
    var s' := Next(s, e);
    if e.Step? && e.task < |s.tasks| && MovesLocks(s.tasks[e.task].pc) {
      LockStepKeepsLocks(s, e.task, e.answer);
    } else {
      if e.Step? && e.task < |s.tasks| {
        WorkStaysOnItsSide(s.store, s.tasks[e.task], e.answer);
      }
      forall u | 0 <= u < |s'.tasks| ensures TaskLockOk(s', u) {
        if u < |s.tasks| {
          assert TaskLockOk(s, u);
        }
      }
      forall lock | lock in s'.held ensures HolderOk(s', lock) {
        assert HolderOk(s, lock);
      }
    }
  }

  lemma SameLockSameTask(s: State, t: nat, u: nat)
    requires LocksOk(s) && t < |s.tasks| && u < |s.tasks|
    requires InSection(s.tasks[t].pc) && InSection(s.tasks[u].pc) && s.tasks[t].lock == s.tasks[u].lock
    ensures t == u
  {
    assert TaskLockOk(s, t) && TaskLockOk(s, u);
  }

  // ---- Files ----

  /** Past the second check, with a save ahead. */
  predicate Committed(pc: Pc) {
    pc.Fetch? || pc.WriteTemp? || pc.RenameTemp?
  }

  predicate Saving(pc: Pc) {
    pc.WriteTemp? || pc.RenameTemp?
  }

  /** What this task saves goes to the file of `key` exactly if it is a task of `key`. */
  predicate Separately(k: Task, key: Key) {
    Saving(k.pc) ==> (SavedAs(k.key, k.pc.fetched) == key <==> k.key == key)
  }

  /** So does what it fetches. */
  predicate Separate(k: Task, a: Answer, key: Key) {
    k.pc.Fetch? && a.Fetched? ==> (SavedAs(k.key, a.manifest) == key <==> k.key == key)
  }

  /** Nobody outside touches the file of `key`, and fetches for `key` and for others are separate. */
  predicate Allowed(s: State, e: Event, key: Key) {
    match e
    case Spawn(_) => true
    case Step(t, a) => t < |s.tasks| ==> Separate(s.tasks[t], a, key)
    case Outside(other, _) => other != key
  }

  ghost predicate AllAllowed(s: State, events: seq<Event>, key: Key)
    decreases |events|
  {
    events == [] || (Allowed(s, events[0], key) && AllAllowed(Next(s, events[0]), events[1..], key))
  }

  lemma {:induction false} AdmissibleIsAllowed(s: State, events: seq<Event>, key: Key, may: Fetches)
    requires BringsOwn(may, key) && OthersApart(may, key) && AllAdmissible(s, events, key, may)
    ensures AllAllowed(s, events, key)
    decreases |events|
  {
    if events != [] {
      hide Next;
      assert Admissible(s, events[0], key, may);
      AdmissibleIsAllowed(Next(s, events[0]), events[1..], key, may);
    }
  }

  /** As long as the file is missing, nobody has an answer; the writer's temporary file holds
      what it fetched. */
  predicate BeforeSave(s: Store, k: Task) {
    && !k.pc.Forget?
    && (k.pc.Unlock? || k.pc.Finished? ==> k.pc.out.Failed?)
    && (k.pc.RenameTemp? && k.key in s.temps ==> s.temps[k.key] == Good(k.pc.fetched))
  }

  /** Once it is there, nobody fetches, and every answer is what the file holds. */
  predicate AfterSave(m: Manifest, k: Task) {
    && !Committed(k.pc)
    && (k.pc.Forget? ==> k.pc.fetched == m)
    && (k.pc.Unlock? || k.pc.Finished? ==> k.pc.out.Failed? || k.pc.out.manifest == m)
  }

  predicate TaskFileOk(s: Store, k: Task) {
    && !k.pc.FirstDiscard? && !k.pc.SecondDiscard?
    && (if k.key in s.files then s.files[k.key].Good? && AfterSave(s.files[k.key].manifest, k)
        else BeforeSave(s, k))
  }

  /** While the file is missing, the lock everybody has is the one in the table. */
  ghost predicate SharesLock(s: State, t: nat)
    requires t < |s.tasks|
  {
    var k := s.tasks[t];
    k.key !in s.store.files && k.lock.Some? ==> k.key in s.inFlight && s.inFlight[k.key] == k.lock.value
  }

  ghost predicate KeyOk(s: State, key: Key) {
    && (key in s.store.files ==> s.store.files[key].Good?)
    && s.store.completed[key] == s.store.saves[key] <= (if key in s.store.files then 1 else 0)
    && (forall t | 0 <= t < |s.tasks| && s.tasks[t].key == key ::
          TaskFileOk(s.store, s.tasks[t]) && SharesLock(s, t))
    && (forall t | 0 <= t < |s.tasks| :: Separately(s.tasks[t], key))
  }

  lemma WorkStaysSeparate(s: Store, k: Task, a: Answer, key: Key)
    requires Separately(k, key) && Separate(k, a, key)
    ensures Separately(k.(pc := Work(s, k, a).1), key)
  {}

  /** A task of another key leaves this key's files alone. */
  lemma WorkLeavesOtherKeys(s: Store, k: Task, a: Answer, key: Key)
    requires Separately(k, key) && k.key != key
    ensures var s' := Work(s, k, a).0;
            && (key in s'.files <==> key in s.files)
            && (key in s.files ==> s'.files[key] == s.files[key])
            && (key in s'.temps <==> key in s.temps)
            && (key in s.temps ==> s'.temps[key] == s.temps[key])
            && s'.saves[key] == s.saves[key] && s'.completed[key] == s.completed[key]
  {}

  /** A step of a task of this key either changes nothing that others see, or is taken by a
      task on its way to a save, while the file is missing. */
  lemma WorkOnOwnKey(s: Store, k: Task, a: Answer)
    requires Separately(k, k.key) && TaskFileOk(s, k)
    ensures var (s', pc) := Work(s, k, a);
            && TaskFileOk(s', k.(pc := pc))
            && (s' == s || (Saving(k.pc) && k.key !in s.files))
            && ((s'.files == s.files && s'.saves == s.saves && s'.completed == s.completed)
                || (k.key in s'.files && s'.files[k.key].Good? && s'.saves[k.key] == s.saves[k.key] + 1
                    && s'.completed[k.key] == s.completed[k.key] + 1))
  {}

  lemma SameFilesSameTask(s: Store, s': Store, k: Task)
    requires TaskFileOk(s, k)
    requires k.key in s'.files <==> k.key in s.files
    requires k.key in s.files ==> s'.files[k.key] == s.files[k.key]
    requires k.key in s'.temps <==> k.key in s.temps
    requires k.key in s.temps ==> s'.temps[k.key] == s.temps[k.key]
    ensures TaskFileOk(s', k)
  {}

  /** Two tasks of one key cannot both be under its lock while the file is missing. */
  lemma NobodyElseIsInside(s: State, t: nat, u: nat)
    requires LocksOk(s) && t < |s.tasks| && u < |s.tasks| && t != u
    requires s.tasks[t].key == s.tasks[u].key && s.tasks[t].key !in s.store.files
    requires SharesLock(s, t) && SharesLock(s, u) && Saving(s.tasks[t].pc)
    ensures !InSection(s.tasks[u].pc)
  {
    assert TaskLockOk(s, t) && TaskLockOk(s, u);
    if InSection(s.tasks[u].pc) {
      SameLockSameTask(s, t, u);
    }
  }

  lemma OutsideTheSection(s: Store, s': Store, k: Task)
    requires TaskFileOk(s, k) && !InSection(k.pc) && k.key !in s.files
    requires k.key in s'.files ==> s'.files[k.key].Good?
    ensures TaskFileOk(s', k)
  {}

  lemma WorkKeepsKey(s: State, t: nat, a: Answer, key: Key)
    requires LocksOk(s) && KeyOk(s, key) && t < |s.tasks|
    requires !MovesLocks(s.tasks[t].pc) && Separate(s.tasks[t], a, key)
    ensures KeyOk(Advance(s, t, a), key)
  {
    hide Work, TaskFileOk, Separately;
    var s', k := Advance(s, t, a), s.tasks[t];
    WorkStaysSeparate(s.store, k, a, key);
    WorkStaysOnItsSide(s.store, k, a);
    assert TaskLockOk(s, t);
    if k.key != key {
      WorkLeavesOtherKeys(s.store, k, a, key);
      forall u | 0 <= u < |s'.tasks| && s'.tasks[u].key == key ensures TaskFileOk(s'.store, s'.tasks[u]) {
        SameFilesSameTask(s.store, s'.store, s.tasks[u]);
      }
    } else {
      WorkOnOwnKey(s.store, k, a);
      forall u | 0 <= u < |s'.tasks| && s'.tasks[u].key == key && u != t
        ensures TaskFileOk(s'.store, s'.tasks[u])
      {
        if s'.store != s.store {
          NobodyElseIsInside(s, t, u);
          OutsideTheSection(s.store, s'.store, s.tasks[u]);
        }
      }
    }
  }

  lemma LockStepKeepsTask(s: State, t: nat, a: Answer, u: nat)
    requires LocksOk(s) && t < |s.tasks| && u < |s.tasks| && MovesLocks(s.tasks[t].pc)
    requires TaskFileOk(s.store, s.tasks[t]) && TaskFileOk(s.store, s.tasks[u])
    ensures var s' := Advance(s, t, a); u < |s'.tasks| && TaskFileOk(s'.store, s'.tasks[u])
  {
    hide LocksOk, Work;
  }

  lemma LockStepSharesLock(s: State, t: nat, a: Answer, u: nat)
    requires LocksOk(s) && t < |s.tasks| && u < |s.tasks| && MovesLocks(s.tasks[t].pc) && SharesLock(s, u)
    requires TaskFileOk(s.store, s.tasks[t])
    ensures var s' := Advance(s, t, a); u < |s'.tasks| && SharesLock(s', u)
  {
    hide Work, LocksOk;
  }

  lemma OtherLockStep(s: State, t: nat, a: Answer, u: nat)
    requires t < |s.tasks| && u < |s.tasks| && MovesLocks(s.tasks[t].pc) && s.tasks[t].key != s.tasks[u].key
    requires TaskFileOk(s.store, s.tasks[u]) && SharesLock(s, u)
    ensures var s' := Advance(s, t, a);
            u < |s'.tasks| && TaskFileOk(s'.store, s'.tasks[u]) && SharesLock(s', u)
  {
    hide Work, TaskFileOk;
  }

  lemma LockStepKeepsKey(s: State, t: nat, a: Answer, key: Key)
    requires LocksOk(s) && KeyOk(s, key) && t < |s.tasks| && MovesLocks(s.tasks[t].pc)
    ensures KeyOk(Advance(s, t, a), key)
  {
    hide Work, TaskFileOk, SharesLock, LocksOk;
    var s', k := Advance(s, t, a), s.tasks[t];
    forall u | 0 <= u < |s'.tasks| && s'.tasks[u].key == key
      ensures TaskFileOk(s'.store, s'.tasks[u]) && SharesLock(s', u)
    {
      assert TaskFileOk(s.store, s.tasks[u]) && SharesLock(s, u);
      if k.key == key {
        LockStepKeepsTask(s, t, a, u);
        LockStepSharesLock(s, t, a, u);
      } else {
        OtherLockStep(s, t, a, u);
      }
    }
  }

  lemma NextKeepsKey(s: State, e: Event, key: Key)
    requires LocksOk(s) && KeyOk(s, key) && Allowed(s, e, key)
    ensures KeyOk(Next(s, e), key)
  {
    if e.Step? && e.task < |s.tasks| {
      hide Advance, KeyOk, LocksOk;
      if MovesLocks(s.tasks[e.task].pc) {
        LockStepKeepsKey(s, e.task, e.answer, key);
      } else {
        WorkKeepsKey(s, e.task, e.answer, key);
      }
    } else {
      hide Advance;
      var s' := Next(s, e);
      forall u | 0 <= u < |s'.tasks| && s'.tasks[u].key == key
        ensures TaskFileOk(s'.store, s'.tasks[u]) && SharesLock(s', u)
      {
        if u < |s.tasks| {
          assert TaskFileOk(s.store, s.tasks[u]) && SharesLock(s, u);
        }
      }
    }
  }

  lemma {:induction false} RunKeepsKey(s: State, events: seq<Event>, key: Key)
    requires LocksOk(s) && KeyOk(s, key) && AllAllowed(s, events, key)
    ensures LocksOk(Run(s, events)) && KeyOk(Run(s, events), key)
    decreases |events|
  {
    if events != [] {
      hide Next, LocksOk, KeyOk, Allowed;
      NextKeepsLocks(s, events[0]);
      NextKeepsKey(s, events[0], key);
      RunKeepsKey(Next(s, events[0]), events[1..], key);
    }
  }

  /** In every reachable state, at most one caller of a key is saving it, at most one save of it
      has completed, and all callers that got an answer got the same manifest. */
  lemma SavedAtMostOnce(files: map<Key, File>, events: seq<Event>, key: Key, t: nat, u: nat)
    requires key in files ==> files[key].Good?
    requires AllAllowed(Init(files), events, key)
    requires var s := Run(Init(files), events);
             t < |s.tasks| && u < |s.tasks| && s.tasks[t].key == key && s.tasks[u].key == key
    ensures var s := Run(Init(files), events);
            && s.store.saves[key] == s.store.completed[key] <= 1
            && (Saving(s.tasks[t].pc) && Saving(s.tasks[u].pc) ==> t == u)
            && (s.tasks[t].pc.Finished? && s.tasks[u].pc.Finished?
                && s.tasks[t].pc.out.Loaded? && s.tasks[u].pc.out.Loaded? ==>
                  s.tasks[t].pc.out == s.tasks[u].pc.out)
  {
    RunKeepsKey(Init(files), events, key);
    var s := Run(Init(files), events);
    assert TaskFileOk(s.store, s.tasks[t]) && TaskFileOk(s.store, s.tasks[u]);
    if Saving(s.tasks[t].pc) && t != u && key !in s.store.files {
      NobodyElseIsInside(s, t, u);
    }
  }

  // ---- The ids, in plain terms ----

  /** A fetch brings the key's own manifest exactly if that carries the depot and the manifest id asked
      for; the app is the caller's. */
  lemma OwnMeansOwnIds(may: Fetches, key: Key)
    ensures BringsOwn(may, key) <==> forall m | may(key, m) :: m.depot == key.depot && m.gid == key.gid
  {
    forall m | may(key, m) ensures SavedAs(key, m) == key <==> m.depot == key.depot && m.gid == key.gid {}
  }

  /** Fetches for other keys stay apart exactly if none of the same app brings those ids. */
  lemma ApartMeansOtherIds(may: Fetches, key: Key)
    ensures OthersApart(may, key) <==>
            forall k, m | k != key && may(k, m) :: k.app != key.app || m.depot != key.depot || m.gid != key.gid
  {
    forall k: Key, m | k != key && may(k, m)
      ensures SavedAs(k, m) == key <==> k.app == key.app && m.depot == key.depot && m.gid == key.gid
    {}
  }

  /** What a call returns is in the file: from an absent or decodable file that nobody outside touches,
      if the fetches for the key bring manifests with its ids and those for other keys of its app bring
      other ids, a call that has its manifest leaves that manifest in the key's file for good. */
  lemma ReturnedMeansSaved(files: map<Key, File>, events: seq<Event>, key: Key, may: Fetches, t: nat)
    requires key in files ==> files[key].Good?
    requires forall m | may(key, m) :: m.depot == key.depot && m.gid == key.gid
    requires forall k, m | k != key && may(k, m) :: k.app != key.app || m.depot != key.depot || m.gid != key.gid
    requires AllAdmissible(Init(files), events, key, may)
    requires Done(Run(Init(files), events), key, t) && Run(Init(files), events).tasks[t].pc.out.Loaded?
    ensures var s := Run(Init(files), events);
            key in s.store.files && s.store.files[key] == Good(s.tasks[t].pc.out.manifest)
  {
    hide Next, Run, AllAdmissible, AllAllowed;
    OwnMeansOwnIds(may, key);
    ApartMeansOtherIds(may, key);
    AdmissibleIsAllowed(Init(files), events, key, may);
    RunKeepsKey(Init(files), events, key);
    assert TaskFileOk(Run(Init(files), events).store, Run(Init(files), events).tasks[t]);
  }

  lemma NextKeepsGoodFile(s: State, e: Event, key: Key)
    requires LocksOk(s) && KeyOk(s, key) && Allowed(s, e, key) && key in s.store.files
    ensures var store := Next(s, e).store;
            && key in store.files && store.files[key] == s.store.files[key]
            && store.saves[key] == s.store.saves[key]
  {
    hide Work, TaskFileOk, Separately;
    if e.Step? && e.task < |s.tasks| {
      var k := s.tasks[e.task];
      if k.key == key {
        WorkOnOwnKey(s.store, k, e.answer);
      } else {
        WorkLeavesOtherKeys(s.store, k, e.answer, key);
      }
    }
  }

  /** A manifest that is in the cache when the run starts is never fetched. */
  lemma {:induction false} CachedManifestIsKept(s: State, events: seq<Event>, key: Key)
    requires LocksOk(s) && KeyOk(s, key) && AllAllowed(s, events, key) && key in s.store.files
    ensures var store := Run(s, events).store;
            && key in store.files && store.files[key] == s.store.files[key]
            && store.saves[key] == s.store.saves[key]
    decreases |events|
  {
    if events != [] {
      hide Next, LocksOk, KeyOk, Allowed;
      NextKeepsLocks(s, events[0]);
      NextKeepsKey(s, events[0], key);
      NextKeepsGoodFile(s, events[0], key);
      CachedManifestIsKept(Next(s, events[0]), events[1..], key);
    }
  }

  // ---- Progress ----

  predicate CanStep(s: State, t: nat) {
    && t < |s.tasks| && !s.tasks[t].pc.Finished?
    && (s.tasks[t].pc.Waiting? ==> s.tasks[t].lock.Some? && s.tasks[t].lock.value !in s.held)
  }

  lemma {:induction false} RunKeepsLocks(s: State, events: seq<Event>)
    requires LocksOk(s)
    ensures LocksOk(Run(s, events))
    decreases |events|
  {
    if events != [] {
      hide Next, LocksOk;
      NextKeepsLocks(s, events[0]);
      RunKeepsLocks(Next(s, events[0]), events[1..]);
    }
  }

  /** While a task is unfinished, it can move, or the one that holds its lock can: in any run, also
      where locks left the table while they were waited on. */
  lemma NoDeadlock(files: map<Key, File>, events: seq<Event>, t: nat)
    requires var s := Run(Init(files), events); t < |s.tasks| && !s.tasks[t].pc.Finished?
    ensures var s := Run(Init(files), events);
            CanStep(s, t) || (s.tasks[t].lock.Some? && s.tasks[t].lock.value in s.held
                              && CanStep(s, s.held[s.tasks[t].lock.value]))
  {
    hide Next;
    var s := Run(Init(files), events);
    RunKeepsLocks(Init(files), events);
    assert TaskLockOk(s, t);
    if !CanStep(s, t) {
      assert HolderOk(s, s.tasks[t].lock.value);
    }
  }

  function Stage(pc: Pc): nat {
    match pc
    case FirstLoad => 0
    case FirstDiscard => 1
    case TakeLock => 2
    case Waiting => 3
    case SecondLoad => 4
    case SecondDiscard => 5
    case Fetch => 6
    case WriteTemp(_) => 7
    case RenameTemp(_) => 8
    case Forget(_) => 9
    case Unlock(_) => 10
    case Finished(_) => 11
  }

  /** Every step a task can take brings it nearer its end, whatever the answer, and moves nobody else. */
  lemma StepsGoForward(s: State, t: nat, a: Answer)
    requires LocksOk(s) && CanStep(s, t)
    ensures var s' := Advance(s, t, a);
            s'.tasks == s.tasks[t := s'.tasks[t]] && Stage(s.tasks[t].pc) < Stage(s'.tasks[t].pc)
  {
    assert TaskLockOk(s, t);
  }
}
