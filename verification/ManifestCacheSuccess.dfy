/** When calls of the manifest cache succeed: for which initial files and which fetches a call fails
    only if a fetch or the file system fails it. */
module ManifestCacheSuccess {
  import opened Prelude
  import opened ManifestCache
  import opened ManifestCacheOnce
  import opened ManifestCacheRuns

  // ---- From an absent file, when only the key's fetches bring what is saved under it ----

  predicate OnTrack(s: Store, k: Task) {
    && (k.pc.RenameTemp? ==> k.key in s.temps)
    && (k.pc.Unlock? || k.pc.Finished? ==> k.pc.out.Loaded?)
  }

  ghost predicate KeyOnTrack(s: State, key: Key) {
    forall t | 0 <= t < |s.tasks| && s.tasks[t].key == key :: OnTrack(s.store, s.tasks[t])
  }

  lemma WorkStaysOnTrack(s: Store, k: Task, a: Answer)
    requires OnTrack(s, k) && TaskFileOk(s, k) && Separately(k, k.key) && Delivers(k, a, k.key)
    ensures OnTrack(Work(s, k, a).0, k.(pc := Work(s, k, a).1))
  {}

  /** Only a renaming task of the key takes its temporary file away. */
  lemma WorkLeavesOtherTemps(s: Store, k: Task, a: Answer, other: Task)
    requires OnTrack(s, other) && Separately(k, other.key)
    requires k.pc.RenameTemp? && other.pc.RenameTemp? ==> k.key != other.key
    ensures OnTrack(Work(s, k, a).0, other)
  {}

  lemma OneRenamer(s: State, t: nat, u: nat)
    requires t < |s.tasks| && u < |s.tasks| && t != u && s.tasks[t].key == s.tasks[u].key
    requires LocksOk(s) && KeyOk(s, s.tasks[t].key) && s.tasks[t].pc.RenameTemp?
    ensures !s.tasks[u].pc.RenameTemp?
  {
    hide LocksOk;
    if s.tasks[u].pc.RenameTemp? {
      NobodyElseIsInside(s, t, u);
    }
  }

  lemma TaskIsOk(s: State, t: nat, key: Key)
    requires KeyOk(s, key) && t < |s.tasks|
    ensures Separately(s.tasks[t], key)
    ensures s.tasks[t].key == key ==> TaskFileOk(s.store, s.tasks[t])
  {}

  lemma LockStepStaysOnTrack(s: State, t: nat, a: Answer, u: nat)
    requires t < |s.tasks| && u < |s.tasks| && MovesLocks(s.tasks[t].pc) && OnTrack(s.store, s.tasks[u])
    ensures var s' := Advance(s, t, a); u < |s'.tasks| && OnTrack(s'.store, s'.tasks[u])
  {}

  lemma AdvanceStaysOnTrack(s: State, t: nat, a: Answer, key: Key)
    requires LocksOk(s) && KeyOk(s, key) && KeyOnTrack(s, key) && t < |s.tasks| && Delivers(s.tasks[t], a, key)
    ensures KeyOnTrack(Advance(s, t, a), key)
  {
    hide Work, LocksOk, KeyOk, OnTrack, TaskFileOk, Separately;
    var s', k := Advance(s, t, a), s.tasks[t];
    TaskIsOk(s, t, key);
    forall u | 0 <= u < |s'.tasks| && s'.tasks[u].key == key ensures OnTrack(s'.store, s'.tasks[u]) {
      assert OnTrack(s.store, s.tasks[u]);
      if MovesLocks(k.pc) {
        LockStepStaysOnTrack(s, t, a, u);
      } else if u != t {
        if k.key == key && k.pc.RenameTemp? {
          OneRenamer(s, t, u);
        }
        WorkLeavesOtherTemps(s.store, k, a, s.tasks[u]);
      } else {
        WorkStaysOnTrack(s.store, k, a);
      }
    }
  }

  lemma NextStaysOnTrack(s: State, e: Event, key: Key, may: Fetches)
    requires LocksOk(s) && KeyOk(s, key) && KeyOnTrack(s, key) && Helpful(s, e, key, may)
    requires BringsOwn(may, key) && OthersApart(may, key)
    ensures LocksOk(Next(s, e)) && KeyOk(Next(s, e), key) && KeyOnTrack(Next(s, e), key)
  {
    hide Advance, LocksOk, KeyOk;
    NextKeepsLocks(s, e);
    NextKeepsKey(s, e, key);
    if e.Step? && e.task < |s.tasks| {
      AdvanceStaysOnTrack(s, e.task, e.answer, key);
    } else {
      var s' := Next(s, e);
      forall u | 0 <= u < |s'.tasks| && s'.tasks[u].key == key ensures OnTrack(s'.store, s'.tasks[u]) {
        assert u < |s.tasks| ==> OnTrack(s.store, s.tasks[u]);
      }
    }
  }

  lemma {:induction false} RunStaysOnTrack(s: State, events: seq<Event>, key: Key, may: Fetches)
    requires LocksOk(s) && KeyOk(s, key) && KeyOnTrack(s, key) && AllHelpful(s, events, key, may)
    requires BringsOwn(may, key) && OthersApart(may, key)
    ensures KeyOnTrack(Run(s, events), key)
    decreases |events|
  {
    if events != [] {
      hide Next, LocksOk, KeyOk, KeyOnTrack, Helpful, BringsOwn, OthersApart;
      NextStaysOnTrack(s, events[0], key, may);
      RunStaysOnTrack(Next(s, events[0]), events[1..], key, may);
    }
  }

  // ---- When calls for the key only read ----

  /** The key's file is there, or nothing can be fetched for it, and others save elsewhere: the calls
      for the key get no further than the fetch, and have not failed. */
  predicate OnlyReads(k: Task, key: Key, nothing: bool) {
    if k.key == key then
      && !Saving(k.pc) && !k.pc.Forget? && !k.pc.FirstDiscard? && !k.pc.SecondDiscard?
      && (nothing || !k.pc.Fetch?)
      && (k.pc.Unlock? || k.pc.Finished? ==> k.pc.out.Loaded?)
    else Separately(k, key)
  }

  ghost predicate KeyOnlyRead(s: State, key: Key, nothing: bool) {
    && (if key in s.store.files then s.store.files[key].Good? else nothing)
    && forall t | 0 <= t < |s.tasks| :: OnlyReads(s.tasks[t], key, nothing)
  }

  lemma WorkOnlyReads(s: Store, k: Task, a: Answer, key: Key, nothing: bool)
    requires OnlyReads(k, key, nothing) && (if key in s.files then s.files[key].Good? else nothing)
    requires if k.key == key then !Fails(a) && !k.pc.Fetch? else Separate(k, a, key)
    ensures var (s', pc) := Work(s, k, a);
            && OnlyReads(k.(pc := pc), key, nothing)
            && (key in s'.files <==> key in s.files) && (key in s.files ==> s'.files[key] == s.files[key])
  {}

  lemma NextOnlyReads(s: State, e: Event, key: Key, may: Fetches, nothing: bool)
    requires KeyOnlyRead(s, key, nothing) && Helpful(s, e, key, may)
    requires OthersApart(may, key) && (nothing ==> BringsNothing(may, key))
    ensures KeyOnlyRead(Next(s, e), key, nothing)
  {
    hide Work;
    if e.Step? && e.task < |s.tasks| {
      var s', k := Next(s, e), s.tasks[e.task];
      assert OnlyReads(k, key, nothing);
      if !MovesLocks(k.pc) {
        WorkOnlyReads(s.store, k, e.answer, key, nothing);
      }
      forall u | 0 <= u < |s'.tasks| ensures OnlyReads(s'.tasks[u], key, nothing) {
        assert OnlyReads(s.tasks[u], key, nothing);
      }
    }
  }

  lemma {:induction false} RunOnlyReads(s: State, events: seq<Event>, key: Key, may: Fetches, nothing: bool)
    requires KeyOnlyRead(s, key, nothing) && AllHelpful(s, events, key, may)
    requires OthersApart(may, key) && (nothing ==> BringsNothing(may, key))
    ensures KeyOnlyRead(Run(s, events), key, nothing)
    decreases |events|
  {
    if events != [] {
      hide Next, KeyOnlyRead, Helpful, BringsNothing, OthersApart;
      NextOnlyReads(s, events[0], key, may, nothing);
      RunOnlyReads(Next(s, events[0]), events[1..], key, may, nothing);
    }
  }

  // ---- When calls succeed ----

  /** Decidable before the first call: what other keys' fetches bring is saved elsewhere; and the file
      decodes, or is absent and the key's fetches bring its own manifests, or nothing. */
  ghost predicate Serves(files: map<Key, File>, key: Key, may: Fetches) {
    && OthersApart(may, key)
    && if key in files then files[key].Good? else BringsNothing(may, key) || BringsOwn(may, key)
  }

  /** Then a call fails only if a fetch or the file system fails it: no interleaving of callers
      makes one fail. */
  lemma CallsSucceed(files: map<Key, File>, events: seq<Event>, key: Key, may: Fetches, t: nat)
    requires Serves(files, key, may) && AllHelpful(Init(files), events, key, may)
    requires Done(Run(Init(files), events), key, t)
    ensures Run(Init(files), events).tasks[t].pc.out.Loaded?
  {
    hide Next, Run, AllHelpful;
    var s := Run(Init(files), events);
    if key in files || BringsNothing(may, key) {
      RunOnlyReads(Init(files), events, key, may, key !in files);
      assert OnlyReads(s.tasks[t], key, key !in files);
    } else {
      RunStaysOnTrack(Init(files), events, key, may);
      assert OnTrack(s.store, s.tasks[t]);
    }
  }

  /** In every run that is helpful to `key`, every finished call for it has a manifest. */
  ghost predicate NoCallFails(files: map<Key, File>, key: Key, may: Fetches) {
    forall events, t: nat | AllHelpful(Init(files), events, key, may) && Done(Run(Init(files), events), key, t) ::
      Run(Init(files), events).tasks[t].pc.out.Loaded?
  }

  lemma FailsFromBad(files: map<Key, File>, before: seq<Event>, s: State, key: Key, may: Fetches)
    requires Reaches(Init(files), before, s, key, may) && key in s.store.files && s.store.files[key].Bad?
    ensures !NoCallFails(files, key, may)
  {
    hide Run, AllHelpful;
    var events := TwoDiscardsFail(Init(files), before, s, key, may);
    assert Done(Run(Init(files), events), key, |s.tasks| + 1);
  }

  lemma FailsFromOtherIds(files: map<Key, File>, w: Manifest, key: Key, may: Fetches)
    requires key !in files && may(key, w) && SavedAs(key, w) != key
    ensures !NoCallFails(files, key, may)
  {
    hide Run, AllHelpful;
    var store := Saved(Init(files).store, key, w);
    var overlap := OtherIdsOverlap(Init(files).store, w, w, w, key, key, may);
    OverlapFails(store, w, w, w, key, key, may);
    var end := OverlapDone(Published(store, key, SavedAs(key, w), Good(w)), w, w, key);
    GoesOn(Init(files), overlap, BothSaving(store, w, WriteTemp(w), WriteTemp(w), key), Interleaved(), end, key, may);
    assert Done(Run(Init(files), overlap + Interleaved()), key, 2);
  }

  /** The condition is exact. Otherwise two calls remove one undecodable file, which may have been left
      there by callers of another key; or two saves overlap and one renames the other's file away. */
  lemma CallsSucceedIff(files: map<Key, File>, key: Key, may: Fetches)
    ensures NoCallFails(files, key, may) <==> Serves(files, key, may)
  {
    hide Next, Run, AllHelpful, Reaches;
    if Serves(files, key, may) {
      hide Serves;
      forall events, t: nat | AllHelpful(Init(files), events, key, may) && Done(Run(Init(files), events), key, t)
        ensures Run(Init(files), events).tasks[t].pc.out.Loaded?
      {
        CallsSucceed(files, events, key, may, t);
      }
    } else if !OthersApart(may, key) {
      var other, g :| other != key && may(other, g) && SavedAs(other, g) == key;
      var events, s := StrayTears(files, other, g, key, may);
      FailsFromBad(files, events, s, key, may);
    } else if key in files {
      Stays(Init(files), key, may);
      FailsFromBad(files, [], Init(files), key, may);
    } else {
      var w :| may(key, w) && SavedAs(key, w) != key;
      FailsFromOtherIds(files, w, key, may);
    }
  }

  // ---- What makes a call fail ----

  /** A fetch or the file system lets the step down: no manifest; a file that cannot be read, removed,
      written or renamed, or is gone when it is to be removed or renamed. */
  predicate LetDown(s: State, t: nat, a: Answer) {
    t < |s.tasks| &&
    var k := s.tasks[t];
    match k.pc
    case FirstLoad => Fails(a)
    case SecondLoad => Fails(a)
    case FirstDiscard => Fails(a) || k.key !in s.store.files
    case SecondDiscard => Fails(a) || k.key !in s.store.files
    case Fetch => !a.Fetched?
    case WriteTemp(_) => Fails(a)
    case RenameTemp(m) => Fails(a) || SavedAs(k.key, m) !in s.store.temps
    case _ => false
  }

  predicate Doomed(s: State, t: nat) {
    t < |s.tasks| && (s.tasks[t].pc == Unlock(Failed) || s.tasks[t].pc == Finished(Failed))
  }

  lemma LetDownDooms(s: State, t: nat, a: Answer)
    requires LetDown(s, t, a)
    ensures Doomed(Next(s, Step(t, a)), t) && Next(s, Step(t, a)).store.files == s.store.files
  {}

  lemma NextStaysDoomed(s: State, e: Event, t: nat)
    requires Doomed(s, t)
    ensures Doomed(Next(s, e), t)
  {}

  lemma {:induction false} DoomedStays(s: State, events: seq<Event>, t: nat)
    requires Doomed(s, t)
    ensures Doomed(Run(s, events), t)
    decreases |events|
  {
    if events != [] {
      hide Next, Doomed;
      NextStaysDoomed(s, events[0], t);
      DoomedStays(Next(s, events[0]), events[1..], t);
    }
  }

  lemma {:induction false} RunSplits(s: State, before: seq<Event>, e: Event, after: seq<Event>)
    ensures Run(s, before + [e] + after) == Run(Next(Run(s, before), e), after)
    decreases |before|
  {
    hide Next;
    var all := before + [e] + after;
    if before == [] {
      assert all[0] == e && all[1..] == after;
    } else {
      assert all[0] == before[0] && all[1..] == before[1..] + [e] + after;
      RunSplits(Next(s, before[0]), before[1..], e, after);
    }
  }

  /** A call that is let down once fails, and that step changes no file. */
  lemma LetDownFails(files: map<Key, File>, before: seq<Event>, t: nat, a: Answer, after: seq<Event>)
    requires LetDown(Run(Init(files), before), t, a)
    ensures var s := Run(Init(files), before + [Step(t, a)] + after);
            t < |s.tasks| && (s.tasks[t].pc.Finished? ==> s.tasks[t].pc == Finished(Failed))
    ensures Next(Run(Init(files), before), Step(t, a)).store.files == Run(Init(files), before).store.files
  {
    hide Next, Run;
    RunSplits(Init(files), before, Step(t, a), after);
    LetDownDooms(Run(Init(files), before), t, a);
    DoomedStays(Next(Run(Init(files), before), Step(t, a)), after, t);
  }
}
