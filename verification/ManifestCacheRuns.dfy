/** Runs of the manifest cache in which something is fetched, saved or failed more often than one
    would like; and what they start from. */
module ManifestCacheRuns {
  import opened Prelude
  import opened ManifestCache
  import opened ManifestCacheOnce

  // ---- Putting runs together ----

  lemma {:induction false} RunConcat(s: State, a: seq<Event>, b: seq<Event>, key: Key, may: Fetches)
    ensures Run(s, a + b) == Run(Run(s, a), b)
    ensures AllHelpful(s, a, key, may) && AllHelpful(Run(s, a), b, key, may) ==> AllHelpful(s, a + b, key, may)
    decreases |a|
  {
    hide Next, Helpful;
    if a == [] {
      assert a + b == b;
    } else {
      assert (a + b)[1..] == a[1..] + b;
      RunConcat(Next(s, a[0]), a[1..], b, key, may);
    }
  }

  /** A step from one state to another that lets nobody down. */
  ghost predicate Moves(s: State, e: Event, s': State, key: Key, may: Fetches) {
    Next(s, e) == s' && Helpful(s, e, key, may)
  }

  /** `events` lead through these states. */
  ghost predicate Trail(states: seq<State>, events: seq<Event>, key: Key, may: Fetches) {
    && |states| == |events| + 1
    && forall i | 0 <= i < |events| :: Moves(states[i], events[i], states[i + 1], key, may)
  }

  lemma {:induction false} Follow(states: seq<State>, events: seq<Event>, key: Key, may: Fetches)
    requires Trail(states, events, key, may)
    ensures Run(states[0], events) == states[|events|] && AllHelpful(states[0], events, key, may)
    decreases |events|
  {
    if events != [] {
      hide Next, Helpful;
      assert Moves(states[0], events[0], states[1], key, may);
      Follow(states[1..], events[1..], key, may);
    }
  }

  // ---- Single steps ----

  function Tick(t: nat): Event { Step(t, Fine) }

  function At(s: State, t: nat, pc: Pc): State
    requires t < |s.tasks|
  {
    s.(tasks := s.tasks[t := s.tasks[t].(pc := pc)])
  }

  lemma Comes(s: State, k: Key, s': State, key: Key, may: Fetches)
    requires s' == s.(tasks := s.tasks + [Task(k, FirstLoad, None)])
    ensures Moves(s, Spawn(k), s', key, may)
  {}

  lemma Finds(s: State, t: nat, m: Manifest, s': State, key: Key, may: Fetches)
    requires t < |s.tasks| && s.tasks[t].pc.FirstLoad? && s.tasks[t].key in s.store.files
    requires s.store.files[s.tasks[t].key] == Good(m)
    requires s' == At(s, t, Finished(Loaded(m)))
    ensures Moves(s, Tick(t), s', key, may)
  {}

  lemma MissesFirst(s: State, t: nat, s': State, key: Key, may: Fetches)
    requires t < |s.tasks| && s.tasks[t].pc.FirstLoad? && s.tasks[t].key !in s.store.files
    requires s' == At(s, t, TakeLock)
    ensures Moves(s, Tick(t), s', key, may)
  {}

  lemma MissesAgain(s: State, t: nat, s': State, key: Key, may: Fetches)
    requires t < |s.tasks| && s.tasks[t].pc.SecondLoad? && s.tasks[t].key !in s.store.files
    requires s' == At(s, t, Fetch)
    ensures Moves(s, Tick(t), s', key, may)
  {}

  lemma FindsBad(s: State, t: nat, s': State, key: Key, may: Fetches)
    requires t < |s.tasks| && s.tasks[t].pc.FirstLoad? && s.tasks[t].key in s.store.files
    requires s.store.files[s.tasks[t].key].Bad?
    requires s' == At(s, t, FirstDiscard)
    ensures Moves(s, Tick(t), s', key, may)
  {}

  lemma RemovesIt(s: State, t: nat, s': State, key: Key, may: Fetches)
    requires t < |s.tasks| && s.tasks[t].pc.FirstDiscard? && s.tasks[t].key in s.store.files
    requires s' == At(s, t, TakeLock).(store := s.store.(files := s.store.files - {s.tasks[t].key}))
    ensures Moves(s, Tick(t), s', key, may)
  {}

  lemma FindsItGone(s: State, t: nat, s': State, key: Key, may: Fetches)
    requires t < |s.tasks| && s.tasks[t].pc.FirstDiscard? && s.tasks[t].key !in s.store.files
    requires s' == At(s, t, Finished(Failed))
    ensures Moves(s, Tick(t), s', key, may)
  {}

  /** Before it waits, a task gets the lock in the table, or puts a new one there. */
  lemma TakesLock(s: State, t: nat, s': State, key: Key, may: Fetches)
    requires t < |s.tasks| && s.tasks[t].pc.TakeLock?
    requires var k := s.tasks[t].key;
             s' == if k in s.inFlight then s.(tasks := s.tasks[t := Task(k, Waiting, Some(s.inFlight[k]))])
                   else s.(tasks := s.tasks[t := Task(k, Waiting, Some(s.nextLock))],
                           inFlight := s.inFlight[k := s.nextLock], nextLock := s.nextLock + 1)
    ensures Moves(s, Tick(t), s', key, may)
  {}

  lemma GetsIn(s: State, t: nat, s': State, key: Key, may: Fetches)
    requires t < |s.tasks| && s.tasks[t].pc.Waiting? && s.tasks[t].lock.Some? && s.tasks[t].lock.value !in s.held
    requires s' == At(s, t, SecondLoad).(held := s.held[s.tasks[t].lock.value := t])
    ensures Moves(s, Tick(t), s', key, may)
  {}

  lemma Brings(s: State, t: nat, m: Manifest, s': State, key: Key, may: Fetches)
    requires t < |s.tasks| && s.tasks[t].pc.Fetch? && may(s.tasks[t].key, m)
    requires s' == At(s, t, WriteTemp(m))
    ensures Moves(s, Step(t, Fetched(m)), s', key, may)
  {}

  function WithTemp(s: Store, key: Key, m: Manifest): Store {
    s.(temps := s.temps[SavedAs(key, m) := Good(m)])
  }

  lemma Writes(s: State, t: nat, s': State, key: Key, may: Fetches)
    requires t < |s.tasks| && s.tasks[t].pc.WriteTemp?
    requires var m := s.tasks[t].pc.fetched;
             s' == At(s, t, RenameTemp(m)).(store := WithTemp(s.store, s.tasks[t].key, m))
    ensures Moves(s, Tick(t), s', key, may)
  {}

  function WithTornTemp(s: Store, path: Key): Store {
    s.(temps := s.temps[path := Bad])
  }

  lemma Tears(s: State, t: nat, s': State, key: Key, may: Fetches)
    requires t < |s.tasks| && s.tasks[t].pc.WriteTemp? && s.tasks[t].key != key
    requires var path := SavedAs(s.tasks[t].key, s.tasks[t].pc.fetched);
             s' == At(s, t, Unlock(Failed)).(store := WithTornTemp(s.store, path))
    ensures Moves(s, Step(t, Torn), s', key, may)
  {}

  /** What the temporary file holds becomes the file, whoever wrote it. */
  function Renamed(s: Store, key: Key, path: Key): Store
    requires path in s.temps
  {
    Store(s.files[path := s.temps[path]], s.temps - {path}, s.saves + multiset{path}, s.completed + multiset{key})
  }

  lemma Renames(s: State, t: nat, s': State, key: Key, may: Fetches)
    requires t < |s.tasks| && s.tasks[t].pc.RenameTemp?
    requires SavedAs(s.tasks[t].key, s.tasks[t].pc.fetched) in s.store.temps
    requires var k, m := s.tasks[t].key, s.tasks[t].pc.fetched;
             s' == At(s, t, Forget(m)).(store := Renamed(s.store, k, SavedAs(k, m)))
    ensures Moves(s, Tick(t), s', key, may)
  {}

  lemma RenamesNothing(s: State, t: nat, s': State, key: Key, may: Fetches)
    requires t < |s.tasks| && s.tasks[t].pc.RenameTemp?
    requires SavedAs(s.tasks[t].key, s.tasks[t].pc.fetched) !in s.store.temps
    requires s' == At(s, t, Unlock(Failed))
    ensures Moves(s, Tick(t), s', key, may)
  {}

  lemma Forgets(s: State, t: nat, s': State, key: Key, may: Fetches)
    requires t < |s.tasks| && s.tasks[t].pc.Forget?
    requires s' == At(s, t, Unlock(Loaded(s.tasks[t].pc.fetched))).(inFlight := s.inFlight - {s.tasks[t].key})
    ensures Moves(s, Tick(t), s', key, may)
  {}

  lemma LetsGo(s: State, t: nat, s': State, key: Key, may: Fetches)
    requires t < |s.tasks| && s.tasks[t].pc.Unlock? && s.tasks[t].lock.Some?
    requires s' == s.(tasks := s.tasks[t := Task(s.tasks[t].key, Finished(s.tasks[t].pc.out), None)],
                      held := s.held - {s.tasks[t].lock.value})
    ensures Moves(s, Tick(t), s', key, may)
  {}

  lemma GoesAway(s: State, other: Key, s': State, key: Key, may: Fetches)
    requires other != key && s' == s.(store := s.store.(files := s.store.files - {other}))
    ensures Moves(s, Outside(other, None), s', key, may)
  {}

  // ---- One call with nobody else about ----

  /** Task `t` is about to take a lock nobody has, with the file missing. */
  ghost predicate Ready(s: State, t: nat, k: Key) {
    && t < |s.tasks| && s.tasks[t] == Task(k, TakeLock, None)
    && k !in s.inFlight && k !in s.store.files && s.nextLock !in s.held
  }

  /** Task `t` alone under a new lock for its key. */
  function Inside(s: State, t: nat, pc: Pc, store: Store): State
    requires t < |s.tasks|
  {
    var key, lock := s.tasks[t].key, s.nextLock;
    State(s.tasks[t := Task(key, pc, Some(lock))], s.inFlight[key := lock], lock + 1, s.held[lock := t], store)
  }

  function Saved(s: Store, key: Key, m: Manifest): Store {
    var path := SavedAs(key, m);
    Store(s.files[path := Good(m)], s.temps - {path}, s.saves + multiset{path}, s.completed + multiset{key})
  }

  function AfterLoneFetch(s: State, t: nat, m: Manifest): State
    requires t < |s.tasks|
  {
    var key := s.tasks[t].key;
    State(s.tasks[t := Task(key, Finished(Loaded(m)), None)], s.inFlight, s.nextLock + 1, s.held,
          Saved(s.store, key, m))
  }

  lemma EntersAlone(s: State, t: nat, k: Key, key: Key, may: Fetches)
    requires Ready(s, t, k)
    ensures var events := [Tick(t), Tick(t), Tick(t)];
            Run(s, events) == Inside(s, t, Fetch, s.store) && AllHelpful(s, events, key, may)
  {
    hide Next, Helpful, Moves;
    var waiting := Inside(s, t, Waiting, s.store).(held := s.held);
    var loading, inside := Inside(s, t, SecondLoad, s.store), Inside(s, t, Fetch, s.store);
    TakesLock(s, t, waiting, key, may);
    GetsIn(waiting, t, loading, key, may);
    MissesAgain(loading, t, inside, key, may);
    Follow([s, waiting, loading, inside], [Tick(t), Tick(t), Tick(t)], key, may);
  }

  lemma RenamesOwn(s: Store, key: Key, m: Manifest)
    ensures Renamed(WithTemp(s, key, m), key, SavedAs(key, m)) == Saved(s, key, m)
  {
    assert WithTemp(s, key, m).temps - {SavedAs(key, m)} == s.temps - {SavedAs(key, m)};
  }

  lemma SavesAlone(s: State, t: nat, m: Manifest, k: Key, key: Key, may: Fetches)
    requires Ready(s, t, k) && may(k, m)
    ensures var events, inside := [Step(t, Fetched(m)), Tick(t), Tick(t)], Inside(s, t, Fetch, s.store);
            && Run(inside, events) == Inside(s, t, Forget(m), Saved(s.store, k, m))
            && AllHelpful(inside, events, key, may)
  {
    hide Next, Helpful, Moves;
    var fetching, fetched := Inside(s, t, Fetch, s.store), Inside(s, t, WriteTemp(m), s.store);
    var written := Inside(s, t, RenameTemp(m), WithTemp(s.store, k, m));
    var saved := Inside(s, t, Forget(m), Saved(s.store, k, m));
    Brings(fetching, t, m, fetched, key, may);
    Writes(fetched, t, written, key, may);
    RenamesOwn(s.store, k, m);
    Renames(written, t, saved, key, may);
    Follow([fetching, fetched, written, saved], [Step(t, Fetched(m)), Tick(t), Tick(t)], key, may);
  }

  lemma LeavesAlone(s: State, t: nat, m: Manifest, k: Key, key: Key, may: Fetches)
    requires Ready(s, t, k)
    ensures var events, saved := [Tick(t), Tick(t)], Inside(s, t, Forget(m), Saved(s.store, k, m));
            Run(saved, events) == AfterLoneFetch(s, t, m) && AllHelpful(saved, events, key, may)
  {
    hide Next, Helpful, Moves;
    var saved := Inside(s, t, Forget(m), Saved(s.store, k, m));
    var unlocking := Inside(s, t, Unlock(Loaded(m)), saved.store).(inFlight := s.inFlight);
    assert s.inFlight[k := s.nextLock] - {k} == s.inFlight;
    Forgets(saved, t, unlocking, key, may);
    assert s.held[s.nextLock := t] - {s.nextLock} == s.held;
    LetsGo(unlocking, t, AfterLoneFetch(s, t, m), key, may);
    Follow([saved, unlocking, AfterLoneFetch(s, t, m)], [Tick(t), Tick(t)], key, may);
  }

  function LoneFetch(t: nat, m: Manifest): seq<Event> {
    [Tick(t), Tick(t), Tick(t)] + [Step(t, Fetched(m)), Tick(t), Tick(t)] + [Tick(t), Tick(t)]
  }

  lemma FetchesAlone(s: State, t: nat, m: Manifest, k: Key, key: Key, may: Fetches)
    requires Ready(s, t, k) && may(k, m)
    ensures Run(s, LoneFetch(t, m)) == AfterLoneFetch(s, t, m) && AllHelpful(s, LoneFetch(t, m), key, may)
  {
    hide Run, AllHelpful, Next;
    var enter, save, leave := [Tick(t), Tick(t), Tick(t)], [Step(t, Fetched(m)), Tick(t), Tick(t)], [Tick(t), Tick(t)];
    EntersAlone(s, t, k, key, may);
    SavesAlone(s, t, m, k, key, may);
    LeavesAlone(s, t, m, k, key, may);
    RunConcat(s, enter, save, key, may);
    RunConcat(s, enter + save, leave, key, may);
  }

  /** A new caller that does not find the file. */
  function Arrived(s: State, key: Key): State {
    s.(tasks := s.tasks + [Task(key, TakeLock, None)])
  }

  lemma Arrives(s: State, k: Key, key: Key, may: Fetches)
    requires k !in s.store.files
    ensures var events := [Spawn(k), Tick(|s.tasks|)];
            Run(s, events) == Arrived(s, k) && AllHelpful(s, events, key, may)
  {
    hide Next, Helpful, Moves;
    var spawned := s.(tasks := s.tasks + [Task(k, FirstLoad, None)]);
    Comes(s, k, spawned, key, may);
    MissesFirst(spawned, |s.tasks|, Arrived(s, k), key, may);
    Follow([s, spawned, Arrived(s, k)], [Spawn(k), Tick(|s.tasks|)], key, may);
  }

  function Entering(t: nat, k: Key): seq<Event> {
    [Spawn(k), Tick(t)] + [Tick(t), Tick(t), Tick(t)]
  }

  function Entered(s: State, k: Key): State {
    Inside(Arrived(s, k), |s.tasks|, Fetch, s.store)
  }

  /** It gets a new lock, and still does not find the file. */
  lemma Enters(s: State, k: Key, key: Key, may: Fetches)
    requires k !in s.store.files && k !in s.inFlight && s.nextLock !in s.held
    ensures Run(s, Entering(|s.tasks|, k)) == Entered(s, k) && AllHelpful(s, Entering(|s.tasks|, k), key, may)
  {
    hide Run, AllHelpful, Next;
    var t := |s.tasks|;
    Arrives(s, k, key, may);
    EntersAlone(Arrived(s, k), t, k, key, may);
    RunConcat(s, [Spawn(k), Tick(t)], [Tick(t), Tick(t), Tick(t)], key, may);
  }

  // ---- From a state in which nobody is about ----

  ghost predicate Calm(s: State) {
    s.inFlight == map[] && s.held == map[]
  }

  ghost predicate Reaches(start: State, events: seq<Event>, s: State, key: Key, may: Fetches) {
    Run(start, events) == s && AllHelpful(start, events, key, may)
  }

  lemma Stays(s: State, key: Key, may: Fetches)
    ensures Reaches(s, [], s, key, may)
  {
    hide Next;
  }

  lemma GoesOn(start: State, before: seq<Event>, s: State, events: seq<Event>, s': State, key: Key, may: Fetches)
    requires Reaches(start, before, s, key, may) && Reaches(s, events, s', key, may)
    ensures Reaches(start, before + events, s', key, may)
  {
    hide Run, AllHelpful;
    RunConcat(start, before, events, key, may);
  }

  function AfterCall(s: State, k: Key, m: Manifest): State {
    AfterLoneFetch(Arrived(s, k), |s.tasks|, m)
  }

  /** A call that finds no file and fetches. */
  lemma CallFetches(start: State, before: seq<Event>, s: State, k: Key, m: Manifest, key: Key, may: Fetches)
    returns (events: seq<Event>)
    requires Reaches(start, before, s, key, may) && Calm(s) && k !in s.store.files && may(k, m)
    ensures Reaches(start, events, AfterCall(s, k, m), key, may)
  {
    hide Run, AllHelpful, Next, LoneFetch;
    var t := |s.tasks|;
    Arrives(s, k, key, may);
    FetchesAlone(Arrived(s, k), t, m, k, key, may);
    GoesOn(start, before, s, [Spawn(k), Tick(t)], Arrived(s, k), key, may);
    GoesOn(start, before + [Spawn(k), Tick(t)], Arrived(s, k), LoneFetch(t, m), AfterCall(s, k, m), key, may);
    events := before + [Spawn(k), Tick(t)] + LoneFetch(t, m);
  }

  function AfterHit(s: State, k: Key, m: Manifest): State {
    s.(tasks := s.tasks + [Task(k, Finished(Loaded(m)), None)])
  }

  /** A call that finds a decodable file. */
  lemma CallHits(start: State, before: seq<Event>, s: State, k: Key, m: Manifest, key: Key, may: Fetches)
    returns (events: seq<Event>)
    requires Reaches(start, before, s, key, may) && k in s.store.files && s.store.files[k] == Good(m)
    ensures Reaches(start, events, AfterHit(s, k, m), key, may)
  {
    hide Next, Helpful, Moves, Run, AllHelpful;
    var spawned, hit := s.(tasks := s.tasks + [Task(k, FirstLoad, None)]), [Spawn(k), Tick(|s.tasks|)];
    Comes(s, k, spawned, key, may);
    Finds(spawned, |s.tasks|, m, AfterHit(s, k, m), key, may);
    Follow([s, spawned, AfterHit(s, k, m)], hit, key, may);
    GoesOn(start, before, s, hit, AfterHit(s, k, m), key, may);
    events := before + hit;
  }

  function Without(s: State, k: Key): State {
    s.(store := s.store.(files := s.store.files - {k}))
  }

  /** The file of another key goes away. */
  lemma FileGoes(start: State, before: seq<Event>, s: State, other: Key, key: Key, may: Fetches)
    returns (events: seq<Event>)
    requires Reaches(start, before, s, key, may) && other != key
    ensures Reaches(start, events, Without(s, other), key, may)
  {
    hide Next, Helpful, Moves, Run, AllHelpful;
    GoesAway(s, other, Without(s, other), key, may);
    Follow([s, Without(s, other)], [Outside(other, None)], key, may);
    GoesOn(start, before, s, [Outside(other, None)], Without(s, other), key, may);
    events := before + [Outside(other, None)];
  }

  /** A decodable file put there from outside is what the next call returns. */
  lemma OutsideFileIsReturned(s: State, m: Manifest, k: Key, key: Key, may: Fetches) returns (events: seq<Event>)
    requires k != key
    ensures var s' := Run(s, [Outside(k, Some(Good(m)))] + events);
            && |s'.tasks| == |s.tasks| + 1 && s'.tasks[|s.tasks|] == Task(k, Finished(Loaded(m)), None)
            && s'.store.files == s.store.files[k := Good(m)]
  {
    var put := Outside(k, Some(Good(m)));
    var s1 := s.(store := s.store.(files := s.store.files[k := Good(m)]));
    assert Moves(s, put, s1, key, may);
    hide Next, Helpful, Moves, Run, AllHelpful;
    Follow([s, s1], [put], key, may);
    Stays(s1, key, may);
    events := CallHits(s1, [], s1, k, m, key, may);
    GoesOn(s, [put], s1, events, AfterHit(s1, k, m), key, may);
  }

  // ---- From an undecodable file ----

  /** One more task, or two. */
  function With(s: State, k: Key, pc: Pc): State {
    s.(tasks := s.tasks + [Task(k, pc, None)])
  }

  function WithTwo(s: State, k: Key, pc0: Pc, pc1: Pc): State {
    s.(tasks := s.tasks + [Task(k, pc0, None), Task(k, pc1, None)])
  }

  lemma WithTwoSteps(s: State, k: Key, pc0: Pc, pc1: Pc, pc: Pc)
    ensures var both, n := WithTwo(s, k, pc0, pc1), |s.tasks|;
            At(both, n, pc) == WithTwo(s, k, pc, pc1) && At(both, n + 1, pc) == WithTwo(s, k, pc0, pc)
  {
    var both, n := WithTwo(s, k, pc0, pc1), |s.tasks|;
    assert At(both, n, pc).tasks == WithTwo(s, k, pc, pc1).tasks;
    assert At(both, n + 1, pc).tasks == WithTwo(s, k, pc0, pc).tasks;
  }

  lemma OneMore(s: State, k: Key, pc: Pc)
    ensures With(s, k, pc).tasks + [Task(k, FirstLoad, None)] == WithTwo(s, k, pc, FirstLoad).tasks
  {}

  /** Two callers have found the file undecodable. */
  lemma TwoFindIt(s: State, key: Key, may: Fetches)
    requires key in s.store.files && s.store.files[key].Bad?
    ensures var n := |s.tasks|;
            Reaches(s, [Spawn(key), Tick(n), Spawn(key), Tick(n + 1)], WithTwo(s, key, FirstDiscard, FirstDiscard), key,
                    may)
  {
    hide Next, Helpful, Moves;
    var n := |s.tasks|;
    var s1, s2 := With(s, key, FirstLoad), With(s, key, FirstDiscard);
    var s3, s4 := WithTwo(s, key, FirstDiscard, FirstLoad), WithTwo(s, key, FirstDiscard, FirstDiscard);
    Comes(s, key, s1, key, may);
    FindsBad(s1, n, s2, key, may);
    OneMore(s, key, FirstDiscard);
    Comes(s2, key, s3, key, may);
    WithTwoSteps(s, key, FirstDiscard, FirstLoad, FirstDiscard);
    FindsBad(s3, n + 1, s4, key, may);
    Follow([s, s1, s2, s3, s4], [Spawn(key), Tick(n), Spawn(key), Tick(n + 1)], key, may);
  }

  /** The second to remove it finds it gone: its call fails though nothing was refused. */
  lemma TwoDiscardsFail(start: State, before: seq<Event>, s: State, key: Key, may: Fetches) returns (events: seq<Event>)
    requires Reaches(start, before, s, key, may) && key in s.store.files && s.store.files[key].Bad?
    ensures Reaches(start, events, WithTwo(Without(s, key), key, TakeLock, Finished(Failed)), key, may)
  {
    hide Next, Helpful, Moves, Run, AllHelpful;
    var n, without := |s.tasks|, Without(s, key);
    var find := [Spawn(key), Tick(n), Spawn(key), Tick(n + 1)];
    var s1, s2 := WithTwo(s, key, FirstDiscard, FirstDiscard), WithTwo(without, key, TakeLock, FirstDiscard);
    var s3 := WithTwo(without, key, TakeLock, Finished(Failed));
    TwoFindIt(s, key, may);
    WithTwoSteps(s, key, FirstDiscard, FirstDiscard, TakeLock);
    RemovesIt(s1, n, s2, key, may);
    WithTwoSteps(without, key, TakeLock, FirstDiscard, Finished(Failed));
    FindsItGone(s2, n + 1, s3, key, may);
    Follow([s1, s2, s3], [Tick(n), Tick(n + 1)], key, may);
    GoesOn(start, before, s, find, s1, key, may);
    GoesOn(start, before + find, s1, [Tick(n), Tick(n + 1)], s3, key, may);
    events := before + find + [Tick(n), Tick(n + 1)];
  }

  /** A call that finds a file it cannot decode, removes it and fetches; or finds none and fetches. */
  lemma CallReplaces(start: State, before: seq<Event>, s: State, m: Manifest, key: Key, may: Fetches)
    returns (events: seq<Event>)
    requires Reaches(start, before, s, key, may) && Calm(s) && may(key, m)
    requires key in s.store.files ==> s.store.files[key].Bad?
    ensures Reaches(start, events, AfterCall(Without(s, key), key, m), key, may)
  {
    hide Next, Helpful, Moves, Run, AllHelpful, LoneFetch;
    if key !in s.store.files {
      assert s.store.files - {key} == s.store.files;
      events := CallFetches(start, before, s, key, m, key, may);
    } else {
      var n, arrived := |s.tasks|, Arrived(Without(s, key), key);
      var discard := [Spawn(key), Tick(n), Tick(n)];
      Comes(s, key, With(s, key, FirstLoad), key, may);
      FindsBad(With(s, key, FirstLoad), n, With(s, key, FirstDiscard), key, may);
      RemovesIt(With(s, key, FirstDiscard), n, arrived, key, may);
      Follow([s, With(s, key, FirstLoad), With(s, key, FirstDiscard), arrived], discard, key, may);
      FetchesAlone(arrived, n, m, key, key, may);
      GoesOn(start, before, s, discard, arrived, key, may);
      GoesOn(start, before + discard, arrived, LoneFetch(n, m), AfterCall(Without(s, key), key, m), key, may);
      events := before + discard + LoneFetch(n, m);
    }
  }

  /** Two callers find the file undecodable; one removes it, fetches and saves. */
  lemma OneOfTwoFetches(start: State, before: seq<Event>, s: State, m: Manifest, key: Key, may: Fetches)
    returns (events: seq<Event>)
    requires Reaches(start, before, s, key, may) && Calm(s) && may(key, m)
    requires key in s.store.files && s.store.files[key].Bad?
    ensures var two := WithTwo(Without(s, key), key, FirstDiscard, TakeLock);
            Reaches(start, events, AfterLoneFetch(two, |s.tasks| + 1, m), key, may)
  {
    hide Next, Helpful, Moves, Run, AllHelpful, LoneFetch;
    var n := |s.tasks|;
    var find := [Spawn(key), Tick(n), Spawn(key), Tick(n + 1)];
    var s1 := WithTwo(s, key, FirstDiscard, FirstDiscard);
    var s2 := WithTwo(Without(s, key), key, FirstDiscard, TakeLock);
    TwoFindIt(s, key, may);
    WithTwoSteps(s, key, FirstDiscard, FirstDiscard, TakeLock);
    RemovesIt(s1, n + 1, s2, key, may);
    Follow([s1, s2], [Tick(n + 1)], key, may);
    FetchesAlone(s2, n + 1, m, key, key, may);
    GoesOn(start, before, s, find, s1, key, may);
    GoesOn(start, before + find, s1, [Tick(n + 1)], s2, key, may);
    GoesOn(start, before + find + [Tick(n + 1)], s2, LoneFetch(n + 1, m), AfterLoneFetch(s2, n + 1, m), key, may);
    events := before + find + [Tick(n + 1)] + LoneFetch(n + 1, m);
  }

  predicate Returned(s: State, t: nat, key: Key, m: Manifest) {
    t < |s.tasks| && s.tasks[t] == Task(key, Finished(Loaded(m)), None)
  }

  /** Then the other removes the good file it never looked at, and fetches and saves again. */
  lemma TwoDiscardsFetchTwice(start: State, before: seq<Event>, s: State, a: Manifest, b: Manifest, key: Key,
                              may: Fetches)
    returns (events: seq<Event>, s': State)
    requires Reaches(start, before, s, key, may) && Calm(s) && may(key, a) && may(key, b) && SavedAs(key, a) == key
    requires key in s.store.files && s.store.files[key].Bad?
    ensures Reaches(start, events, s', key, may)
    ensures Returned(s', |s.tasks| + 1, key, a) && Returned(s', |s.tasks|, key, b)
    ensures s'.store.completed[key] == s.store.completed[key] + 2
  {
    hide Next, Helpful, Moves, Run, AllHelpful, LoneFetch;
    var n := |s.tasks|;
    var first := OneOfTwoFetches(start, before, s, a, key, may);
    var s1 := AfterLoneFetch(WithTwo(Without(s, key), key, FirstDiscard, TakeLock), n + 1, a);
    var s2 := At(s1, n, TakeLock).(store := s1.store.(files := s1.store.files - {key}));
    RemovesIt(s1, n, s2, key, may);
    Follow([s1, s2], [Tick(n)], key, may);
    s' := AfterLoneFetch(s2, n, b);
    FetchesAlone(s2, n, b, key, key, may);
    GoesOn(start, first, s1, [Tick(n)], s2, key, may);
    GoesOn(start, first + [Tick(n)], s2, LoneFetch(n, b), s', key, may);
    events := first + [Tick(n)] + LoneFetch(n, b);
  }

  /** From an undecodable file, or a missing one if the first fetch brings other ids: two calls in
      which nothing fails each fetch and save, the one `a` and the other `b`. */
  lemma TwoFetches(start: State, before: seq<Event>, s: State, a: Manifest, b: Manifest, key: Key, may: Fetches)
    returns (events: seq<Event>, s': State, t: nat, u: nat)
    requires Reaches(start, before, s, key, may) && Calm(s) && may(key, a) && may(key, b)
    requires if key in s.store.files then s.store.files[key].Bad? else SavedAs(key, a) != key
    ensures Reaches(start, events, s', key, may)
    ensures Returned(s', t, key, a) && Returned(s', u, key, b)
    ensures s'.store.completed[key] == s.store.completed[key] + 2
  {
    hide Next, Run, AllHelpful, Reaches;
    if SavedAs(key, a) == key {
      t, u := |s.tasks| + 1, |s.tasks|;
      events, s' := TwoDiscardsFetchTwice(start, before, s, a, b, key, may);
    } else {
      t, u := |s.tasks|, |s.tasks| + 1;
      var first := CallReplaces(start, before, s, a, key, may);
      var s1 := AfterCall(Without(s, key), key, a);
      events := CallFetches(start, first, s1, key, b, key, may);
      s' := AfterCall(s1, key, b);
    }
  }

  // ---- A manifest with other ids: two saves overlap ----

  function Beginning(tasks: seq<Task>, store: Store): State {
    State(tasks, map[], 0, map[], store)
  }

  /** The first caller under its lock, the second waiting for it. */
  lemma OneWaits(store: Store, k: Key, key: Key, may: Fetches)
    requires k !in store.files
    ensures Reaches(Beginning([], store), Entering(0, k) + [Spawn(k), Tick(1)] + [Tick(1)],
                    State([Task(k, Fetch, Some(0)), Task(k, Waiting, Some(0))], map[k := 0], 1, map[0 := 0], store),
                    key, may)
  {
    hide Next, Helpful, Moves, Run, AllHelpful, Entering;
    var s0 := Beginning([], store);
    var s1 := Entered(s0, k);
    var s2 := Arrived(s1, k);
    var s3 := s2.(tasks := [s1.tasks[0], Task(k, Waiting, Some(0))]);
    Enters(s0, k, key, may);
    Arrives(s1, k, key, may);
    TakesLock(s2, 1, s3, key, may);
    Follow([s2, s3], [Tick(1)], key, may);
    GoesOn(s0, Entering(0, k), s1, [Spawn(k), Tick(1)], s2, key, may);
    GoesOn(s0, Entering(0, k) + [Spawn(k), Tick(1)], s2, [Tick(1)], s3, key, may);
  }

  /** The first caller's manifest is saved elsewhere, and the lock the second waits for leaves the
      table while the file is still missing. */
  lemma LockLeavesTooEarly(store: Store, w: Manifest, k: Key, key: Key, may: Fetches)
    requires may(k, w)
    ensures var second := Task(k, Waiting, Some(0));
            Reaches(State([Task(k, Fetch, Some(0)), second], map[k := 0], 1, map[0 := 0], store),
                    [Step(0, Fetched(w)), Tick(0), Tick(0), Tick(0), Tick(0)],
                    State([Task(k, Finished(Loaded(w)), None), second], map[], 1, map[], Saved(store, k, w)), key, may)
  {
    hide Next, Helpful, Moves;
    var second, lock := Task(k, Waiting, Some(0)), Some(0);
    var s0 := State([Task(k, Fetch, lock), second], map[k := 0], 1, map[0 := 0], store);
    var s1 := s0.(tasks := [Task(k, WriteTemp(w), lock), second]);
    var s2 := s0.(tasks := [Task(k, RenameTemp(w), lock), second], store := WithTemp(store, k, w));
    var s3 := s0.(tasks := [Task(k, Forget(w), lock), second], store := Saved(store, k, w));
    var s4 := s3.(tasks := [Task(k, Unlock(Loaded(w)), lock), second], inFlight := map[]);
    var s5 := State([Task(k, Finished(Loaded(w)), None), second], map[], 1, map[], s3.store);
    Brings(s0, 0, w, s1, key, may);
    Writes(s1, 0, s2, key, may);
    RenamesOwn(store, k, w);
    hide WithTemp, Renamed, Saved;
    Renames(s2, 0, s3, key, may);
    Forgets(s3, 0, s4, key, may);
    LetsGo(s4, 0, s5, key, may);
    Follow([s0, s1, s2, s3, s4, s5], [Step(0, Fetched(w)), Tick(0), Tick(0), Tick(0), Tick(0)], key, may);
  }

  /** Three callers: the first has its manifest, the others are both about to save theirs, under
      different locks. */
  function BothSaving(store: Store, w: Manifest, pc1: Pc, pc2: Pc, k: Key): State {
    State([Task(k, Finished(Loaded(w)), None), Task(k, pc1, Some(0)), Task(k, pc2, Some(1))],
          map[k := 1], 2, map[0 := 1, 1 := 2], store)
  }

  /** A newcomer is under a new lock; the one that waits gets the old lock, and both fetch. */
  lemma BothFetch(store: Store, w: Manifest, m1: Manifest, m2: Manifest, k: Key, key: Key, may: Fetches)
    requires k !in store.files && may(k, m1) && may(k, m2)
    ensures var done, waiting := Task(k, Finished(Loaded(w)), None), Task(k, Waiting, Some(0));
            Reaches(State([done, waiting, Task(k, Fetch, Some(1))], map[k := 1], 2, map[1 := 2], store),
                    [Tick(1), Tick(1), Step(1, Fetched(m1)), Step(2, Fetched(m2))],
                    BothSaving(store, w, WriteTemp(m1), WriteTemp(m2), k), key, may)
  {
    hide Next, Helpful, Moves;
    var done, waiting := Task(k, Finished(Loaded(w)), None), Task(k, Waiting, Some(0));
    var s0 := State([done, waiting, Task(k, Fetch, Some(1))], map[k := 1], 2, map[1 := 2], store);
    var s1, s2 := BothSaving(store, w, SecondLoad, Fetch, k), BothSaving(store, w, Fetch, Fetch, k);
    var s3 := BothSaving(store, w, WriteTemp(m1), Fetch, k);
    var s4 := BothSaving(store, w, WriteTemp(m1), WriteTemp(m2), k);
    assert map[1 := 2][0 := 1] == map[0 := 1, 1 := 2];
    GetsIn(s0, 1, s1, key, may);
    MissesAgain(s1, 1, s2, key, may);
    Brings(s2, 1, m1, s3, key, may);
    Brings(s3, 2, m2, s4, key, may);
    Follow([s0, s1, s2, s3, s4], [Tick(1), Tick(1), Step(1, Fetched(m1)), Step(2, Fetched(m2))], key, may);
  }

  /** From a missing file: once a fetch brings a manifest with other ids, two saves overlap. */
  lemma OtherIdsOverlap(store: Store, w: Manifest, m1: Manifest, m2: Manifest, k: Key, key: Key, may: Fetches)
    returns (events: seq<Event>)
    requires k !in store.files && SavedAs(k, w) != k && may(k, w) && may(k, m1) && may(k, m2)
    ensures Reaches(Beginning([], store), events,
                    BothSaving(Saved(store, k, w), w, WriteTemp(m1), WriteTemp(m2), k), key, may)
  {
    hide Run, AllHelpful, Next, Entering;
    var s0, second := Beginning([], store), Task(k, Waiting, Some(0));
    var wait := Entering(0, k) + [Spawn(k), Tick(1)] + [Tick(1)];
    var leave := [Step(0, Fetched(w)), Tick(0), Tick(0), Tick(0), Tick(0)];
    var fetch := [Tick(1), Tick(1), Step(1, Fetched(m1)), Step(2, Fetched(m2))];
    var waits := State([Task(k, Fetch, Some(0)), second], map[k := 0], 1, map[0 := 0], store);
    var left := State([Task(k, Finished(Loaded(w)), None), second], map[], 1, map[], Saved(store, k, w));
    var both := State(left.tasks + [Task(k, Fetch, Some(1))], map[k := 1], 2, map[1 := 2], left.store);
    OneWaits(store, k, key, may);
    LockLeavesTooEarly(store, w, k, key, may);
    Enters(left, k, key, may);
    assert Entered(left, k) == both;
    assert both.tasks == [Task(k, Finished(Loaded(w)), None), second, Task(k, Fetch, Some(1))];
    assert Reaches(left, Entering(2, k), both, key, may);
    BothFetch(left.store, w, m1, m2, k, key, may);
    hide Reaches;
    GoesOn(s0, wait, waits, leave, left, key, may);
    GoesOn(s0, wait + leave, left, Entering(2, k), both, key, may);
    events := wait + leave + Entering(2, k) + fetch;
    GoesOn(s0, wait + leave + Entering(2, k), both, fetch, BothSaving(left.store, w, WriteTemp(m1), WriteTemp(m2), k),
           key, may);
  }

  /** The overlapping saves one after the other: both complete. */
  lemma OverlapSavesTwice(store: Store, w: Manifest, m1: Manifest, m2: Manifest, key: Key, may: Fetches)
    requires SavedAs(key, m1) == key && SavedAs(key, m2) == key
    ensures Reaches(BothSaving(store, w, WriteTemp(m1), WriteTemp(m2), key), [Tick(1), Tick(1), Tick(2), Tick(2)],
                    BothSaving(Saved(Saved(store, key, m1), key, m2), w, Forget(m1), Forget(m2), key), key, may)
  {
    hide Next, Helpful, Moves;
    var s0 := BothSaving(store, w, WriteTemp(m1), WriteTemp(m2), key);
    var s1 := BothSaving(WithTemp(store, key, m1), w, RenameTemp(m1), WriteTemp(m2), key);
    var once := Saved(store, key, m1);
    var s2 := BothSaving(once, w, Forget(m1), WriteTemp(m2), key);
    var s3 := BothSaving(WithTemp(once, key, m2), w, Forget(m1), RenameTemp(m2), key);
    var s4 := BothSaving(Saved(once, key, m2), w, Forget(m1), Forget(m2), key);
    Writes(s0, 1, s1, key, may);
    RenamesOwn(store, key, m1);
    Renames(s1, 1, s2, key, may);
    Writes(s2, 2, s3, key, may);
    RenamesOwn(once, key, m2);
    Renames(s3, 2, s4, key, may);
    hide WithTemp, Saved;
    Follow([s0, s1, s2, s3, s4], [Tick(1), Tick(1), Tick(2), Tick(2)], key, may);
  }

  /** After both have written the one temporary file, or the second has torn it, the first to rename
      it publishes what the second left. */
  function Published(s: Store, k: Key, path: Key, file: File): Store {
    Store(s.files[path := file], s.temps - {path}, s.saves + multiset{path}, s.completed + multiset{k})
  }

  lemma RenamesOthers(s: Store, k: Key, m1: Manifest, m2: Manifest)
    requires SavedAs(k, m1) == SavedAs(k, m2)
    ensures var path := SavedAs(k, m1);
            var written, torn := WithTemp(WithTemp(s, k, m1), k, m2), WithTornTemp(WithTemp(s, k, m1), path);
            && path in written.temps && Renamed(written, k, path) == Published(s, k, path, Good(m2))
            && path in torn.temps && Renamed(torn, k, path) == Published(s, k, path, Bad)
  {
    var path := SavedAs(k, m1);
    assert WithTemp(WithTemp(s, k, m1), k, m2).temps - {path} == s.temps - {path};
    assert WithTornTemp(WithTemp(s, k, m1), path).temps - {path} == s.temps - {path};
  }

  lemma OverlapRenames(store: Store, w: Manifest, m1: Manifest, m2: Manifest, k: Key, key: Key, may: Fetches)
    requires SavedAs(k, m1) == SavedAs(k, m2)
    ensures Reaches(BothSaving(store, w, WriteTemp(m1), WriteTemp(m2), k), [Tick(1), Tick(2), Tick(1), Tick(2)],
                    BothSaving(Published(store, k, SavedAs(k, m1), Good(m2)), w, Forget(m1), Unlock(Failed), k),
                    key, may)
  {
    hide Next, Helpful, Moves;
    var published := Published(store, k, SavedAs(k, m1), Good(m2));
    var written1 := WithTemp(store, k, m1);
    var written2 := WithTemp(written1, k, m2);
    var s0 := BothSaving(store, w, WriteTemp(m1), WriteTemp(m2), k);
    var s1 := BothSaving(written1, w, RenameTemp(m1), WriteTemp(m2), k);
    var s2 := BothSaving(written2, w, RenameTemp(m1), RenameTemp(m2), k);
    var s3 := BothSaving(published, w, Forget(m1), RenameTemp(m2), k);
    var s4 := BothSaving(published, w, Forget(m1), Unlock(Failed), k);
    RenamesOthers(store, k, m1, m2);
    Writes(s0, 1, s1, key, may);
    Writes(s1, 2, s2, key, may);
    hide WithTemp, WithTornTemp, Renamed;
    Renames(s2, 1, s3, key, may);
    RenamesNothing(s3, 2, s4, key, may);
    Follow([s0, s1, s2, s3, s4], [Tick(1), Tick(2), Tick(1), Tick(2)], key, may);
  }

  lemma OverlapTears(store: Store, g: Manifest, k: Key, key: Key, may: Fetches)
    requires k != key
    ensures Reaches(BothSaving(store, g, WriteTemp(g), WriteTemp(g), k), [Tick(1), Step(2, Torn), Tick(1)],
                    BothSaving(Published(store, k, SavedAs(k, g), Bad), g, Forget(g), Unlock(Failed), k), key, may)
  {
    hide Next, Helpful, Moves;
    var path := SavedAs(k, g);
    var written := WithTemp(store, k, g);
    var torn := WithTornTemp(written, path);
    var s0 := BothSaving(store, g, WriteTemp(g), WriteTemp(g), k);
    var s1 := BothSaving(written, g, RenameTemp(g), WriteTemp(g), k);
    var s2 := BothSaving(torn, g, RenameTemp(g), Unlock(Failed), k);
    var s3 := BothSaving(Published(store, k, path, Bad), g, Forget(g), Unlock(Failed), k);
    RenamesOthers(store, k, g, g);
    Writes(s0, 1, s1, key, may);
    Tears(s1, 2, s2, key, may);
    hide WithTemp, WithTornTemp, Renamed;
    Renames(s2, 1, s3, key, may);
    Follow([s0, s1, s2, s3], [Tick(1), Step(2, Torn), Tick(1)], key, may);
  }

  function OverlapDone(store: Store, w: Manifest, m: Manifest, k: Key): State {
    State([Task(k, Finished(Loaded(w)), None), Task(k, Finished(Loaded(m)), None), Task(k, Finished(Failed), None)],
          map[], 2, map[], store)
  }

  lemma OverlapEnds(store: Store, w: Manifest, m1: Manifest, k: Key, key: Key, may: Fetches)
    ensures Reaches(BothSaving(store, w, Forget(m1), Unlock(Failed), k), [Tick(1), Tick(1), Tick(2)],
                    OverlapDone(store, w, m1, k), key, may)
  {
    hide Next, Helpful, Moves;
    var first, failing := Task(k, Finished(Loaded(w)), None), Task(k, Unlock(Failed), Some(1));
    var done := Task(k, Finished(Loaded(m1)), None);
    var s0 := BothSaving(store, w, Forget(m1), Unlock(Failed), k);
    var s1 := BothSaving(store, w, Unlock(Loaded(m1)), Unlock(Failed), k).(inFlight := map[]);
    var s2, s3 := State([first, done, failing], map[], 2, map[1 := 2], store), OverlapDone(store, w, m1, k);
    assert map[k := 1] - {k} == map[];
    Forgets(s0, 1, s1, key, may);
    assert map[0 := 1, 1 := 2] - {0} == map[1 := 2];
    LetsGo(s1, 1, s2, key, may);
    assert map[1 := 2] - {1} == map[];
    LetsGo(s2, 2, s3, key, may);
    Follow([s0, s1, s2, s3], [Tick(1), Tick(1), Tick(2)], key, may);
  }

  function Interleaved(): seq<Event> {
    [Tick(1), Tick(2), Tick(1), Tick(2)] + [Tick(1), Tick(1), Tick(2)]
  }

  /** The overlapping saves interleaved, if they go to the same file: the second caller's rename
      fails, and the first returns a manifest the file does not hold. */
  lemma OverlapFails(store: Store, w: Manifest, m1: Manifest, m2: Manifest, k: Key, key: Key, may: Fetches)
    requires SavedAs(k, m1) == SavedAs(k, m2)
    ensures var published := Published(store, k, SavedAs(k, m1), Good(m2));
            Reaches(BothSaving(store, w, WriteTemp(m1), WriteTemp(m2), k), Interleaved(),
                    OverlapDone(published, w, m1, k), key, may)
  {
    hide Reaches;
    var s := BothSaving(store, w, WriteTemp(m1), WriteTemp(m2), k);
    var published := Published(store, k, SavedAs(k, m1), Good(m2));
    OverlapRenames(store, w, m1, m2, k, key, may);
    OverlapEnds(published, w, m1, k, key, may);
    GoesOn(s, [Tick(1), Tick(2), Tick(1), Tick(2)], BothSaving(published, w, Forget(m1), Unlock(Failed), k),
           [Tick(1), Tick(1), Tick(2)], OverlapDone(published, w, m1, k), key, may);
  }

  /** The last two callers saving one after the other, or interleaved until all are done. */
  function InTurn(): seq<Event> {
    [Tick(1), Tick(1), Tick(2), Tick(2)]
  }

  /** From an empty cache, with nothing refused and nobody outside: one fetch that brings other ids,
      and two saves of the key overlap, and both complete; or one of the calls fails, and another
      returns a manifest other than the one saved. */
  lemma OtherIdsBreakTheFlight(w: Manifest, m1: Manifest, m2: Manifest, key: Key, may: Fetches)
    returns (overlap: seq<Event>)
    requires SavedAs(key, w) != key && SavedAs(key, m1) == key && SavedAs(key, m2) == key
    requires may(key, w) && may(key, m1) && may(key, m2)
    ensures AllHelpful(Init(map[]), overlap + InTurn(), key, may)
    ensures AllHelpful(Init(map[]), overlap + Interleaved(), key, may)
    ensures var s := Run(Init(map[]), overlap);
            |s.tasks| == 3 && Saving(s.tasks[1].pc) && Saving(s.tasks[2].pc)
    ensures Run(Init(map[]), overlap + InTurn()).store.saves[key] == 2
    ensures var s := Run(Init(map[]), overlap + Interleaved());
            && |s.tasks| == 3 && s.tasks[2] == Task(key, Finished(Failed), None)
            && Returned(s, 1, key, m1) && key in s.store.files && s.store.files[key] == Good(m2)
  {
    hide Run, AllHelpful, Next;
    var store := Saved(Init(map[]).store, key, w);
    var s := BothSaving(store, w, WriteTemp(m1), WriteTemp(m2), key);
    overlap := OtherIdsOverlap(Init(map[]).store, w, m1, m2, key, key, may);
    OverlapSavesTwice(store, w, m1, m2, key, may);
    OverlapFails(store, w, m1, m2, key, key, may);
    GoesOn(Init(map[]), overlap, s, InTurn(),
           BothSaving(Saved(Saved(store, key, m1), key, m2), w, Forget(m1), Forget(m2), key), key, may);
    GoesOn(Init(map[]), overlap, s, Interleaved(), OverlapDone(Published(store, key, key, Good(m2)), w, m1, key), key,
           may);
  }

  // ---- What is fetched for other keys and saved under this one ----

  /** Two callers of another key save one manifest under this one. The second write is torn, and the
      first caller publishes the rest: from any start, the key's file is undecodable. */
  lemma StrayTears(files: map<Key, File>, other: Key, g: Manifest, key: Key, may: Fetches)
    returns (events: seq<Event>, s': State)
    requires other != key && may(other, g) && SavedAs(other, g) == key
    ensures Reaches(Init(files), events, s', key, may) && Calm(s')
    ensures key in s'.store.files && s'.store.files[key].Bad? && s'.store.completed[key] == 0
  {
    hide Reaches;
    Stays(Init(files), key, may);
    var gone := FileGoes(Init(files), [], Init(files), other, key, may);
    var s0 := Without(Init(files), other);
    assert s0 == Beginning([], s0.store);
    var saved := Saved(s0.store, other, g);
    var s1 := BothSaving(saved, g, WriteTemp(g), WriteTemp(g), other);
    var overlap := OtherIdsOverlap(s0.store, g, g, g, other, key, may);
    GoesOn(Init(files), gone, s0, overlap, s1, key, may);
    var tear, end := [Tick(1), Step(2, Torn), Tick(1)], [Tick(1), Tick(1), Tick(2)];
    var published := Published(saved, other, key, Bad);
    var s2 := BothSaving(published, g, Forget(g), Unlock(Failed), other);
    OverlapTears(saved, g, other, key, may);
    GoesOn(Init(files), gone + overlap, s1, tear, s2, key, may);
    OverlapEnds(published, g, g, other, key, may);
    s' := OverlapDone(published, g, g, other);
    GoesOn(Init(files), gone + overlap + tear, s2, end, s', key, may);
    events := gone + overlap + tear + end;
  }

  /** The file of another key goes away, and what is fetched for that key is saved under this one. */
  lemma Strays(start: State, before: seq<Event>, s: State, other: Key, g: Manifest, key: Key, may: Fetches)
    returns (events: seq<Event>)
    requires Reaches(start, before, s, key, may) && Calm(s) && other != key && may(other, g)
    ensures Reaches(start, events, AfterCall(Without(s, other), other, g), key, may)
  {
    hide Reaches;
    var gone := FileGoes(start, before, s, other, key, may);
    events := CallFetches(start, gone, Without(s, other), other, g, key, may);
  }
}
