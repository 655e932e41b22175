/** When all callers of a key that get a manifest get the same one. */
module ManifestCacheAgreement {
  import opened Prelude
  import opened ManifestCache
  import opened ManifestCacheOnce
  import Flight = ManifestCacheFlight
  import opened ManifestCacheRuns

  predicate Got(s: State, key: Key, t: nat) {
    Done(s, key, t) && s.tasks[t].pc.out.Loaded?
  }

  ghost predicate Agree(s: State, key: Key) {
    forall t: nat, u: nat | Got(s, key, t) && Got(s, key, u) :: s.tasks[t].pc.out == s.tasks[u].pc.out
  }

  ghost predicate AlwaysAgree(files: map<Key, File>, key: Key, may: Fetches) {
    forall events | AllAdmissible(Init(files), events, key, may) :: Agree(Run(Init(files), events), key)
  }

  /** A fetch for another key may save `m` under this one. */
  ghost predicate MayStray(may: Fetches, key: Key, m: Manifest) {
    exists other | other != key :: may(other, m) && SavedAs(other, m) == key
  }

  /** `m` may be what a call for the key gets. */
  ghost predicate MayGet(files: map<Key, File>, key: Key, may: Fetches, m: Manifest) {
    || (key in files && files[key] == Good(m))
    || may(key, m)
    || MayStray(may, key, m)
  }

  /** Decidable before the first call: there is one manifest to be had; or what other keys' fetches
      bring is saved elsewhere, and the file decodes, or is absent and the key's fetches bring its own
      manifests. */
  ghost predicate OneAnswer(files: map<Key, File>, key: Key, may: Fetches) {
    || (forall m, n | MayGet(files, key, may, m) && MayGet(files, key, may, n) :: m == n)
    || (OthersApart(may, key) && if key in files then files[key].Good? else BringsOwn(may, key))
  }

  // ---- Which manifests there are to be had ----

  /** Only manifests of `these` are on the way to the key's file, or have been returned for it. */
  ghost predicate TaskHasOnly(k: Task, key: Key, these: iset<Manifest>) {
    && (Saving(k.pc) && SavedAs(k.key, k.pc.fetched) == key ==> k.pc.fetched in these)
    && (k.key == key && (Saving(k.pc) || k.pc.Forget?) ==> k.pc.fetched in these)
    && (k.key == key && (k.pc.Unlock? || k.pc.Finished?) && k.pc.out.Loaded? ==> k.pc.out.manifest in these)
  }

  ghost predicate StoreHasOnly(s: Store, key: Key, these: iset<Manifest>) {
    && (key in s.files && s.files[key].Good? ==> s.files[key].manifest in these)
    && (key in s.temps && s.temps[key].Good? ==> s.temps[key].manifest in these)
  }

  ghost predicate HasOnly(s: State, key: Key, these: iset<Manifest>) {
    StoreHasOnly(s.store, key, these) && forall t | 0 <= t < |s.tasks| :: TaskHasOnly(s.tasks[t], key, these)
  }

  lemma WorkHasOnly(s: Store, k: Task, a: Answer, key: Key, these: iset<Manifest>)
    requires StoreHasOnly(s, key, these) && TaskHasOnly(k, key, these)
    requires k.pc.Fetch? && a.Fetched? && (k.key == key || SavedAs(k.key, a.manifest) == key) ==> a.manifest in these
    ensures var (s', pc) := Work(s, k, a); StoreHasOnly(s', key, these) && TaskHasOnly(k.(pc := pc), key, these)
  {}

  /** All that is fetched for this key, or strays there, is in `these`; or it has it and keeps it. */
  ghost predicate OnlyBrings(s: State, key: Key, may: Fetches, these: iset<Manifest>) {
    || (Flight.Unfetched(s, key, false) && OthersApart(may, key))
    || forall n | may(key, n) || MayStray(may, key, n) :: n in these
  }

  lemma FetchHasOnly(s: State, t: nat, a: Answer, key: Key, may: Fetches, these: iset<Manifest>)
    requires OnlyBrings(s, key, may, these) && t < |s.tasks| && Admissible(s, Step(t, a), key, may)
    ensures var k := s.tasks[t];
            k.pc.Fetch? && a.Fetched? && (k.key == key || SavedAs(k.key, a.manifest) == key) ==> a.manifest in these
  {
    var k := s.tasks[t];
    assert Flight.Unfetched(s, key, false) ==> Flight.TaskUnfetched(k, key, false);
    if k.pc.Fetch? && a.Fetched? && k.key != key && SavedAs(k.key, a.manifest) == key {
      assert MayStray(may, key, a.manifest);
    }
  }

  lemma NextOnlyBrings(s: State, e: Event, key: Key, may: Fetches, these: iset<Manifest>)
    requires OnlyBrings(s, key, may, these) && Admissible(s, e, key, may)
    ensures OnlyBrings(Next(s, e), key, may, these)
  {
    hide Next, Flight.Unfetched, OthersApart, Admissible;
    if Flight.Unfetched(s, key, false) && OthersApart(may, key) {
      Flight.NextStaysUnfetched(s, e, key, may, false);
    }
  }

  lemma NextHasOnly(s: State, e: Event, key: Key, may: Fetches, these: iset<Manifest>)
    requires HasOnly(s, key, these) && OnlyBrings(s, key, may, these) && Admissible(s, e, key, may)
    ensures HasOnly(Next(s, e), key, these)
  {
    hide Work, OnlyBrings;
    if e.Step? && e.task < |s.tasks| {
      var s', k := Next(s, e), s.tasks[e.task];
      assert TaskHasOnly(k, key, these);
      if !MovesLocks(k.pc) {
        FetchHasOnly(s, e.task, e.answer, key, may, these);
        WorkHasOnly(s.store, k, e.answer, key, these);
      }
      forall u | 0 <= u < |s'.tasks| ensures TaskHasOnly(s'.tasks[u], key, these) {
        assert TaskHasOnly(s.tasks[u], key, these);
      }
    }
  }

  lemma {:induction false} RunHasOnly(s: State, events: seq<Event>, key: Key, may: Fetches, these: iset<Manifest>)
    requires HasOnly(s, key, these) && OnlyBrings(s, key, may, these) && AllAdmissible(s, events, key, may)
    ensures HasOnly(Run(s, events), key, these)
    decreases |events|
  {
    if events != [] {
      hide Next, HasOnly, OnlyBrings, Admissible;
      NextHasOnly(s, events[0], key, may, these);
      NextOnlyBrings(s, events[0], key, may, these);
      RunHasOnly(Next(s, events[0]), events[1..], key, may, these);
    }
  }

  lemma OnlyAgrees(s: State, key: Key, these: iset<Manifest>)
    requires HasOnly(s, key, these) && forall m, n | m in these && n in these :: m == n
    ensures Agree(s, key)
  {
    forall t: nat, u: nat | Got(s, key, t) && Got(s, key, u) ensures s.tasks[t].pc.out == s.tasks[u].pc.out {
      assert TaskHasOnly(s.tasks[t], key, these) && TaskHasOnly(s.tasks[u], key, these);
    }
  }

  ghost function ToBeHad(files: map<Key, File>, key: Key, may: Fetches): iset<Manifest> {
    iset m | MayGet(files, key, may, m)
  }

  lemma RunHasOnlyThose(files: map<Key, File>, events: seq<Event>, key: Key, may: Fetches)
    requires AllAdmissible(Init(files), events, key, may)
    ensures HasOnly(Run(Init(files), events), key, ToBeHad(files, key, may))
  {
    hide Run, AllAdmissible, Next;
    var these := ToBeHad(files, key, may);
    assert forall n | may(key, n) || MayStray(may, key, n) :: MayGet(files, key, may, n);
    assert key in files && files[key].Good? ==> MayGet(files, key, may, files[key].manifest);
    RunHasOnly(Init(files), events, key, may, these);
  }

  /** Whatever fails: a call returns nothing but what was in the key's file at the start, what a fetch
      for the key brought, or what one for another key brought that is saved there. */
  lemma GotWasToBeHad(files: map<Key, File>, events: seq<Event>, key: Key, may: Fetches, t: nat)
    requires AllAdmissible(Init(files), events, key, may) && Got(Run(Init(files), events), key, t)
    ensures MayGet(files, key, may, Run(Init(files), events).tasks[t].pc.out.manifest)
  {
    hide Run, AllAdmissible, Next;
    RunHasOnlyThose(files, events, key, may);
    assert TaskHasOnly(Run(Init(files), events).tasks[t], key, ToBeHad(files, key, may));
  }

  /** In all runs, all calls for the key that get a manifest get the same one. */
  lemma CallsAgree(files: map<Key, File>, events: seq<Event>, key: Key, may: Fetches)
    requires OneAnswer(files, key, may) && AllAdmissible(Init(files), events, key, may)
    ensures Agree(Run(Init(files), events), key)
  {
    hide Run, AllAdmissible, Next;
    var s := Run(Init(files), events);
    if forall m, n | MayGet(files, key, may, m) && MayGet(files, key, may, n) :: m == n {
      RunHasOnlyThose(files, events, key, may);
      OnlyAgrees(s, key, ToBeHad(files, key, may));
    } else if key in files {
      assert Flight.Unfetched(Init(files), key, false);
      RunHasOnly(Init(files), events, key, may, iset{files[key].manifest});
      OnlyAgrees(s, key, iset{files[key].manifest});
    } else {
      AdmissibleIsAllowed(Init(files), events, key, may);
      forall t: nat, u: nat | Got(s, key, t) && Got(s, key, u) ensures s.tasks[t].pc.out == s.tasks[u].pc.out {
        SavedAtMostOnce(files, events, key, t, u);
      }
    }
  }

  // ---- Otherwise two calls get different ones ----

  lemma TwoGot(files: map<Key, File>, events: seq<Event>, s: State, t: nat, u: nat, m: Manifest, n: Manifest, key: Key,
               may: Fetches)
    requires Reaches(Init(files), events, s, key, may) && Returned(s, t, key, m) && Returned(s, u, key, n) && m != n
    ensures !AlwaysAgree(files, key, may)
  {
    hide Run, AllHelpful, AllAdmissible;
    HelpfulIsAdmissible(Init(files), events, key, may);
    assert Got(s, key, t) && Got(s, key, u);
    assert !Agree(s, key);
  }

  /** After a call got `m`, another manifest strays into the file, and another call gets that. */
  lemma StraysLater(files: map<Key, File>, before: seq<Event>, s: State, t: nat, m: Manifest, n: Manifest, key: Key,
                    may: Fetches)
    requires Reaches(Init(files), before, s, key, may) && Calm(s) && Returned(s, t, key, m) && m != n
    requires MayStray(may, key, n)
    ensures !AlwaysAgree(files, key, may)
  {
    hide Reaches, AlwaysAgree;
    var other :| other != key && may(other, n) && SavedAs(other, n) == key;
    var stray := Strays(Init(files), before, s, other, n, key, may);
    var s1 := AfterCall(Without(s, other), other, n);
    var load := CallHits(Init(files), stray, s1, key, n, key, may);
    TwoGot(files, load, AfterHit(s1, key, n), t, |s1.tasks|, m, n, key, may);
  }

  /** One call gets `m`; later another manifest strays into the file. */
  lemma GetsThenStrays(files: map<Key, File>, m: Manifest, n: Manifest, key: Key, may: Fetches)
    requires MayGet(files, key, may, m) && MayStray(may, key, n) && m != n
    ensures !AlwaysAgree(files, key, may)
  {
    hide Reaches, AlwaysAgree;
    var s := Init(files);
    Stays(s, key, may);
    if key in files && files[key] == Good(m) {
      var load := CallHits(s, [], s, key, m, key, may);
      StraysLater(files, load, AfterHit(s, key, m), 0, m, n, key, may);
    } else if may(key, m) {
      var other, g :| other != key && may(other, g) && SavedAs(other, g) == key;
      var tear, torn := StrayTears(files, other, g, key, may);
      var fetch := CallReplaces(s, tear, torn, m, key, may);
      var s1 := AfterCall(Without(torn, key), key, m);
      StraysLater(files, fetch, s1, |torn.tasks|, m, n, key, may);
    } else {
      var other :| other != key && may(other, m) && SavedAs(other, m) == key;
      var stray := Strays(s, [], s, other, m, key, may);
      var s1 := AfterCall(Without(s, other), other, m);
      var load := CallHits(s, stray, s1, key, m, key, may);
      StraysLater(files, load, AfterHit(s1, key, m), |s1.tasks|, m, n, key, may);
    }
  }

  lemma BothFetched(files: map<Key, File>, a: Manifest, b: Manifest, key: Key, may: Fetches)
    requires may(key, a) && may(key, b) && a != b
    requires if key in files then files[key].Bad? else SavedAs(key, a) != key
    ensures !AlwaysAgree(files, key, may)
  {
    hide Reaches, AlwaysAgree;
    Stays(Init(files), key, may);
    var events, s, t, u := TwoFetches(Init(files), [], Init(files), a, b, key, may);
    TwoGot(files, events, s, t, u, a, b, key, may);
  }

  lemma CallsDisagree(files: map<Key, File>, key: Key, may: Fetches)
    requires !OneAnswer(files, key, may)
    ensures !AlwaysAgree(files, key, may)
  {
    hide AlwaysAgree;
    var m, n :| MayGet(files, key, may, m) && MayGet(files, key, may, n) && m != n;
    if !OthersApart(may, key) {
      var other, g :| other != key && may(other, g) && SavedAs(other, g) == key;
      assert MayStray(may, key, g);
      GetsThenStrays(files, if m != g then m else n, g, key, may);
    } else if key in files {
      BothFetched(files, m, n, key, may);
    } else {
      var w :| may(key, w) && SavedAs(key, w) != key;
      BothFetched(files, w, if w != m then m else n, key, may);
    }
  }

  /** The condition is exact. */
  lemma CallsAgreeIff(files: map<Key, File>, key: Key, may: Fetches)
    ensures AlwaysAgree(files, key, may) <==> OneAnswer(files, key, may)
  {
    hide Run, AllAdmissible, Agree, OneAnswer;
    if OneAnswer(files, key, may) {
      forall events | AllAdmissible(Init(files), events, key, may) ensures Agree(Run(Init(files), events), key) {
        CallsAgree(files, events, key, may);
      }
    } else {
      CallsDisagree(files, key, may);
    }
  }
}
