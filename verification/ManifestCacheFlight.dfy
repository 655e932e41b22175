/** One fetch and save per key, counted for the callers that asked for it, and exactly when. */
module ManifestCacheFlight {
  import opened Prelude
  import opened ManifestCache
  import opened ManifestCacheOnce
  import opened ManifestCacheRuns

  predicate IsSaving(s: State, t: nat, key: Key) {
    t < |s.tasks| && s.tasks[t].key == key && Saving(s.tasks[t].pc)
  }

  /** At most one fetch-and-save for the key has completed, and at most one is under way. */
  ghost predicate SingleFlight(s: State, key: Key) {
    && s.store.completed[key] <= 1
    && forall t, u | 0 <= t < |s.tasks| && 0 <= u < |s.tasks| ::
         IsSaving(s, t, key) && IsSaving(s, u, key) ==> t == u
  }

  // ---- A key that is never fetched ----

  /** Fetches bring nothing; or the key's file is there, and no task of another key saves to it. Then
      no task of the key gets to save. */
  predicate TaskUnfetched(k: Task, key: Key, nothing: bool) {
    if k.key == key then
      && !Saving(k.pc) && !k.pc.Forget?
      && (nothing || (!k.pc.Fetch? && !k.pc.FirstDiscard? && !k.pc.SecondDiscard?))
    else nothing || Separately(k, key)
  }

  ghost predicate Unfetched(s: State, key: Key, nothing: bool) {
    && s.store.completed[key] == 0
    && (nothing || (key in s.store.files && s.store.files[key].Good?))
    && forall t | 0 <= t < |s.tasks| :: TaskUnfetched(s.tasks[t], key, nothing)
  }

  lemma WorkUnfetched(s: Store, k: Task, a: Answer, key: Key, nothing: bool)
    requires TaskUnfetched(k, key, nothing) && (nothing || (key in s.files && s.files[key].Good?))
    requires k.pc.Fetch? && a.Fetched? ==> k.key != key && (nothing || SavedAs(k.key, a.manifest) != key)
    ensures var (s', pc) := Work(s, k, a);
            && TaskUnfetched(k.(pc := pc), key, nothing) && s'.completed[key] == s.completed[key]
            && (nothing || (key in s'.files && s'.files[key] == s.files[key]))
  {}

  lemma AdvanceStaysUnfetched(s: State, t: nat, a: Answer, key: Key, may: Fetches, nothing: bool)
    requires Unfetched(s, key, nothing) && t < |s.tasks| && Admissible(s, Step(t, a), key, may)
    requires if nothing then BringsNothing(may, key) else OthersApart(may, key)
    ensures Unfetched(Advance(s, t, a), key, nothing)
    ensures !nothing ==> Advance(s, t, a).store.files[key] == s.store.files[key]
  {
    var s', k := Advance(s, t, a), s.tasks[t];
    assert TaskUnfetched(k, key, nothing);
    if !MovesLocks(k.pc) {
      WorkUnfetched(s.store, k, a, key, nothing);
    }
    hide Work, BringsNothing, OthersApart;
    forall u | 0 <= u < |s'.tasks| ensures TaskUnfetched(s'.tasks[u], key, nothing) {
      assert TaskUnfetched(s.tasks[u], key, nothing);
    }
  }

  lemma NextStaysUnfetched(s: State, e: Event, key: Key, may: Fetches, nothing: bool)
    requires Unfetched(s, key, nothing) && Admissible(s, e, key, may)
    requires if nothing then BringsNothing(may, key) else OthersApart(may, key)
    ensures Unfetched(Next(s, e), key, nothing)
    ensures !nothing ==> Next(s, e).store.files[key] == s.store.files[key]
  {
    hide Advance, BringsNothing, OthersApart;
    if e.Step? && e.task < |s.tasks| {
      AdvanceStaysUnfetched(s, e.task, e.answer, key, may, nothing);
    }
  }

  lemma {:induction false} RunStaysUnfetched(s: State, events: seq<Event>, key: Key, may: Fetches, nothing: bool)
    requires Unfetched(s, key, nothing) && AllAdmissible(s, events, key, may)
    requires if nothing then BringsNothing(may, key) else OthersApart(may, key)
    ensures Unfetched(Run(s, events), key, nothing)
    ensures !nothing ==> Run(s, events).store.files[key] == s.store.files[key]
    decreases |events|
  {
    if events != [] {
      hide Next, Unfetched, Admissible, BringsNothing, OthersApart;
      NextStaysUnfetched(s, events[0], key, may, nothing);
      RunStaysUnfetched(Next(s, events[0]), events[1..], key, may, nothing);
    }
  }

  // ---- When there is a single flight ----

  /** Decidable before the first call: fetches for the key bring nothing; or what other keys' fetches
      bring is saved elsewhere, and the file decodes, or is absent and the key's fetches bring its own
      manifests. */
  ghost predicate FliesOnce(files: map<Key, File>, key: Key, may: Fetches) {
    || BringsNothing(may, key)
    || (OthersApart(may, key) && if key in files then files[key].Good? else BringsOwn(may, key))
  }

  /** Whatever the interleaving, and whatever is refused. */
  lemma OneFlight(files: map<Key, File>, events: seq<Event>, key: Key, may: Fetches)
    requires FliesOnce(files, key, may) && AllAdmissible(Init(files), events, key, may)
    ensures SingleFlight(Run(Init(files), events), key)
  {
    hide Next, Run, AllAdmissible;
    var s := Run(Init(files), events);
    if BringsNothing(may, key) || key in files {
      RunStaysUnfetched(Init(files), events, key, may, BringsNothing(may, key));
      assert forall t | 0 <= t < |s.tasks| :: TaskUnfetched(s.tasks[t], key, BringsNothing(may, key));
    } else {
      AdmissibleIsAllowed(Init(files), events, key, may);
      RunKeepsKey(Init(files), events, key);
      forall t, u | 0 <= t < |s.tasks| && 0 <= u < |s.tasks| && IsSaving(s, t, key) && IsSaving(s, u, key)
        ensures t == u
      {
        SavedAtMostOnce(files, events, key, t, u);
      }
    }
  }

  ghost predicate AlwaysSingleFlight(files: map<Key, File>, key: Key, may: Fetches) {
    forall events | AllAdmissible(Init(files), events, key, may) :: SingleFlight(Run(Init(files), events), key)
  }

  lemma FliesTwice(files: map<Key, File>, before: seq<Event>, s: State, m: Manifest, key: Key, may: Fetches)
    requires Reaches(Init(files), before, s, key, may) && Calm(s) && may(key, m)
    requires if key in s.store.files then s.store.files[key].Bad? else SavedAs(key, m) != key
    ensures !AlwaysSingleFlight(files, key, may)
  {
    hide Run, AllAdmissible, AllHelpful;
    var events, s', _, _ := TwoFetches(Init(files), before, s, m, m, key, may);
    HelpfulIsAdmissible(Init(files), events, key, may);
    assert !SingleFlight(s', key);
  }

  /** The condition is exact: where it does not hold, there is a run in which two calls, for which
      nothing fails, fetch and save. */
  lemma SingleFlightIff(files: map<Key, File>, key: Key, may: Fetches)
    ensures AlwaysSingleFlight(files, key, may) <==> FliesOnce(files, key, may)
  {
    hide Run, AllAdmissible, SingleFlight, Reaches;
    if FliesOnce(files, key, may) {
      forall events | AllAdmissible(Init(files), events, key, may)
        ensures SingleFlight(Run(Init(files), events), key)
      {
        OneFlight(files, events, key, may);
      }
    } else {
      var m :| may(key, m);
      if !OthersApart(may, key) {
        var other, g :| other != key && may(other, g) && SavedAs(other, g) == key;
        var events, s := StrayTears(files, other, g, key, may);
        FliesTwice(files, events, s, m, key, may);
      } else {
        Stays(Init(files), key, may);
        var w :| may(key, w) && (key in files || SavedAs(key, w) != key);
        FliesTwice(files, [], Init(files), w, key, may);
      }
    }
  }
}
