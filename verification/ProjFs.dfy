/** Directory enumeration sessions of the ProjFS callbacks. */
module ProjFs {
  import opened Prelude
  import opened Sorting

  datatype Entry = Entry(name: string, size: nat, isDir: bool)

  /** A directory's entries as `StartDirEnum` sorted them, and how far they have been delivered. */
  datatype EnumSession = EnumSession(entries: seq<Entry>, index: nat, search: Option<string>, searchCaptured: bool)

  datatype HResult = S_OK | FileNotFound | InsufficientBuffer | Failed(code: nat)

  /** The answer of the system's buffer to one more entry. */
  datatype Fill = Added | Full | Refused(code: nat)

  class DirEntryBuffer {
    var entries: seq<Entry>
    const answer: (seq<Entry>, Entry) -> Fill

    constructor (answer: (seq<Entry>, Entry) -> Fill)
      ensures this.answer == answer && entries == []
    {
      this.answer := answer;
      entries := [];
    }

    /** An entry that does not fit is not added. */
    method Add(e: Entry) returns (r: Fill)
      modifies this`entries
      ensures r == answer(old(entries), e)
      ensures entries == if r == Added then old(entries) + [e] else old(entries)
    {
      r := answer(entries, e);
      if r == Added {
        entries := entries + [e];
      }
    }
  }

  /** The system's comparison of names, on entries. */
  function ByEntryName(le: (string, string) -> bool): (Entry, Entry) -> bool {
    (a: Entry, b: Entry) => le(a.name, b.name)
  }

  predicate Selected(search: Option<string>, matches: (string, string) -> bool, e: Entry) {
    search == None || matches(e.name, search.value)
  }

  /** The entries from number `i` on that match the search. */
  function Selection(entries: seq<Entry>, i: nat, search: Option<string>, matches: (string, string) -> bool): seq<Entry>
    requires i <= |entries|
    decreases |entries| - i
  {
    if i == |entries| then []
    else (if Selected(search, matches, entries[i]) then [entries[i]] else []) + Selection(entries, i + 1, search, matches)
  }

  predicate InRange(s: EnumSession) {
    s.index <= |s.entries|
  }

  /** What a session still has to deliver. */
  function Pending(s: EnumSession, matches: (string, string) -> bool): seq<Entry>
    requires InRange(s)
  {
    Selection(s.entries, s.index, s.search, matches)
  }

  /** No pattern and an empty one select everything. */
  function Captured(pattern: Option<string>): Option<string> {
    if pattern == Some("") then None else pattern
  }

  /** The session a call works on: rewound if it restarts the scan, with the call's own pattern
      if it is the first of a scan. */
  function Scanning(s: EnumSession, restart: bool, pattern: Option<string>): (r: EnumSession)
    ensures r.entries == s.entries && r.searchCaptured
    ensures InRange(s) ==> InRange(r)
  {
    if restart then EnumSession(s.entries, 0, Captured(pattern), true)
    else if s.searchCaptured then s
    else s.(search := Captured(pattern), searchCaptured := true)
  }

  /** One call: what it put into the buffer and what is left make up what was pending; it
      stopped because nothing is left or because of the buffer's answer to the next entry. */
  ghost predicate Delivers(before: EnumSession, after: EnumSession, matches: (string, string) -> bool,
                           answer: (seq<Entry>, Entry) -> Fill, emitted: seq<Entry>, r: HResult)
    requires InRange(before) && InRange(after)
  {
    var left := Pending(after, matches);
    && after.entries == before.entries && after.search == before.search && after.searchCaptured
    && emitted + left == Pending(before, matches)
    && (left == [] ==> r == S_OK)
    && (left != [] ==>
          match answer(emitted, left[0])
          case Added => false
          case Full => r == if emitted == [] then InsufficientBuffer else S_OK
          case Refused(code) => r == Failed(code))
  }

  /** Moving past one entry. */
  lemma Advance(s: EnumSession, matches: (string, string) -> bool, emitted: seq<Entry>, all: seq<Entry>)
    requires s.index < |s.entries| && emitted + Pending(s, matches) == all
    ensures var e, next := s.entries[s.index], s.(index := s.index + 1);
            if Selected(s.search, matches, e) then
              && Pending(s, matches) != [] && Pending(s, matches)[0] == e
              && (emitted + [e]) + Pending(next, matches) == all
            else emitted + Pending(next, matches) == all
  {
    var e, rest := s.entries[s.index], Pending(s.(index := s.index + 1), matches);
    if Selected(s.search, matches, e) {
      assert Pending(s, matches) == [e] + rest;
      assert emitted + ([e] + rest) == (emitted + [e]) + rest;
    } else {
      assert Pending(s, matches) == rest;
    }
  }

  lemma NothingLeft(s: EnumSession, matches: (string, string) -> bool)
    requires s.index == |s.entries|
    ensures Pending(s, matches) == []
  {}

  lemma NamesOrderEntries(le: (string, string) -> bool)
    requires TotalOrder(le)
    ensures TotalOrder(ByEntryName(le))
  {
    var onEntries := ByEntryName(le);
    forall a: Entry, b: Entry ensures onEntries(a, b) || onEntries(b, a) {
      assert le(a.name, b.name) || le(b.name, a.name);
    }
    forall a: Entry, b: Entry, c: Entry | onEntries(a, b) && onEntries(b, c) ensures onEntries(a, c) {
      assert le(a.name, b.name) && le(b.name, c.name);
    }
  }

  class Context {
    var enums: map<nat, EnumSession>

    ghost predicate Valid()
      reads this
    {
      forall key | key in enums :: InRange(enums[key])
    }

    constructor ()
      ensures Valid() && enums == map[]
    {
      enums := map[];
    }

    /** A new session over the listed entries, sorted by the system's comparison. */
    method StartDirEnum(key: nat, listed: seq<Entry>, le: (string, string) -> bool)
      requires Valid()
      modifies this
      ensures Valid() && key in enums && enums == old(enums)[key := enums[key]]
      ensures var s := enums[key]; s == EnumSession(s.entries, 0, None, false)
      ensures multiset(enums[key].entries) == multiset(listed)
      ensures TotalOrder(le) ==>
                && Sorted(ByEntryName(le), enums[key].entries)
                && forall e :: Keep(Alike(ByEntryName(le), e), enums[key].entries)
                               == Keep(Alike(ByEntryName(le), e), listed)
    {
      hide Sort;
      if TotalOrder(le) {
        NamesOrderEntries(le);
        SortSorts(ByEntryName(le), listed);
        forall e ensures Keep(Alike(ByEntryName(le), e), Sort(ByEntryName(le), listed))
                      == Keep(Alike(ByEntryName(le), e), listed)
        {
          SortIsStable(ByEntryName(le), e, listed);
        }
      }
      enums := enums[key := EnumSession(Sort(ByEntryName(le), listed), 0, None, false)];
    }

    /** Rewinding and capturing the pattern. */
    method BeginScan(key: nat, restart: bool, pattern: Option<string>)
      requires Valid() && key in enums
      modifies this
      ensures Valid() && enums == old(enums)[key := Scanning(old(enums)[key], restart, pattern)]
    {
      if restart {
        enums := enums[key := EnumSession(enums[key].entries, 0, None, false)];
      }
      if !enums[key].searchCaptured {
        var search := if pattern == None || pattern.value == "" then None else pattern;
        enums := enums[key := enums[key].(search := search, searchCaptured := true)];
      }
    }

    method GetDirEnum(key: nat, restart: bool, pattern: Option<string>, matches: (string, string) -> bool,
                      buffer: DirEntryBuffer)
      returns (r: HResult)
      requires Valid() && buffer.entries == []
      modifies this, buffer
      ensures Valid() && enums.Keys == old(enums.Keys)
      ensures forall k | k in enums && k != key :: enums[k] == old(enums)[k]
      ensures key !in old(enums) ==> r == FileNotFound && buffer.entries == []
      ensures key in old(enums) ==>
                Delivers(Scanning(old(enums)[key], restart, pattern), enums[key], matches, buffer.answer, buffer.entries, r)
    {
      hide Pending, Selected, Scanning;
      if key !in enums {
        return FileNotFound;
      }
      BeginScan(key, restart, pattern);
      ghost var scanned, before := enums, enums[key];
      var added := false;
      while enums[key].index < |enums[key].entries|
        invariant key in enums && enums == scanned[key := before.(index := enums[key].index)]
        invariant InRange(enums[key])
        invariant buffer.entries + Pending(enums[key], matches) == Pending(before, matches)
        invariant added <==> buffer.entries != []
        decreases |enums[key].entries| - enums[key].index
      {
        var sess := enums[key];
        var e := sess.entries[sess.index];
        Advance(sess, matches, buffer.entries, Pending(before, matches));
        if Selected(sess.search, matches, e) {
          var fill := buffer.Add(e);
          if fill.Refused? {
            return Failed(fill.code);
          }
          if fill.Full? {
            return if added then S_OK else InsufficientBuffer;
          }
          added := true;
        }
        enums := enums[key := sess.(index := sess.index + 1)];
      }
      NothingLeft(enums[key], matches);
      r := S_OK;
    }

    method EndDirEnum(key: nat)
      requires Valid()
      modifies this
      ensures Valid() && enums == old(enums) - {key}
    {
      enums := enums - {key};
    }
  }

  // ---- A whole scan ----

  /** One call as it was made and answered, with the session it left. */
  datatype Call = Call(restart: bool, pattern: Option<string>, answer: (seq<Entry>, Entry) -> Fill,
                       emitted: seq<Entry>, result: HResult, after: EnumSession)

  function SessionAfter(start: EnumSession, calls: seq<Call>): EnumSession {
    if calls == [] then start else calls[|calls| - 1].after
  }

  /** Calls on one session, of which only the first can restart the scan. */
  ghost predicate IsScan(start: EnumSession, matches: (string, string) -> bool, calls: seq<Call>) {
    calls != [] ==>
      var earlier, last := calls[..|calls| - 1], calls[|calls| - 1];
      var session := SessionAfter(start, earlier);
      && IsScan(start, matches, earlier)
      && (earlier != [] ==> !last.restart)
      && InRange(session) && InRange(last.after)
      && Delivers(Scanning(session, last.restart, last.pattern), last.after, matches, last.answer, last.emitted, last.result)
  }

  function Emitted(calls: seq<Call>): seq<Entry> {
    if calls == [] then [] else Emitted(calls[..|calls| - 1]) + calls[|calls| - 1].emitted
  }

  lemma PendingAtStart(s: EnumSession, matches: (string, string) -> bool)
    requires s.index == 0
    ensures Pending(s, matches) == Selection(s.entries, 0, s.search, matches)
  {}

  /** The first call fixes the pattern; the calls of a scan deliver the entries that match it, in
      order and each once, whatever the buffers take. */
  lemma {:induction false} ScanDelivers(start: EnumSession, matches: (string, string) -> bool, calls: seq<Call>)
    requires calls != [] && IsScan(start, matches, calls)
    requires calls[0].restart || (start.index == 0 && !start.searchCaptured)
    ensures var s := SessionAfter(start, calls);
            && InRange(s) && s.searchCaptured
            && s.entries == start.entries && s.search == Captured(calls[0].pattern)
            && Emitted(calls) + Pending(s, matches) == Selection(start.entries, 0, Captured(calls[0].pattern), matches)
    decreases |calls|
  {
    hide Pending, Selection;
    var earlier, last := calls[..|calls| - 1], calls[|calls| - 1];
    var session := SessionAfter(start, earlier);
    var scanning := Scanning(session, last.restart, last.pattern);
    if earlier == [] {
      assert Pending(scanning, matches) == Selection(start.entries, 0, Captured(last.pattern), matches) by {
        PendingAtStart(scanning, matches);
      }
      assert Emitted(earlier) == [];
    } else {
      ScanDelivers(start, matches, earlier);
      assert (Emitted(earlier) + last.emitted) + Pending(last.after, matches)
           == Emitted(earlier) + (last.emitted + Pending(last.after, matches));
    }
  }

  lemma {:induction false} SelectionIsPart(entries: seq<Entry>, i: nat, search: Option<string>,
                                           matches: (string, string) -> bool, k: nat)
    requires i <= |entries| && k < |Selection(entries, i, search, matches)|
    ensures exists j :: i <= j < |entries| && entries[j] == Selection(entries, i, search, matches)[k]
    decreases |entries| - i
  {
    var rest := Selection(entries, i + 1, search, matches);
    if Selected(search, matches, entries[i]) {
      if k > 0 {
        SelectionIsPart(entries, i + 1, search, matches, k - 1);
      }
    } else {
      SelectionIsPart(entries, i + 1, search, matches, k);
    }
  }

  /** What a scan delivers is in the system's order. */
  lemma {:induction false} SelectionSorted(le: (string, string) -> bool, entries: seq<Entry>, i: nat,
                                           search: Option<string>, matches: (string, string) -> bool)
    requires i <= |entries| && Sorted(ByEntryName(le), entries)
    ensures Sorted(ByEntryName(le), Selection(entries, i, search, matches))
    decreases |entries| - i
  {
    if i < |entries| {
      hide ByEntryName;
      SelectionSorted(le, entries, i + 1, search, matches);
      var rest := Selection(entries, i + 1, search, matches);
      forall k | 0 <= k < |rest| ensures ByEntryName(le)(entries[i], rest[k]) {
        SelectionIsPart(entries, i + 1, search, matches, k);
      }
    }
  }

  /** A call that succeeds without an entry says that all of the scan has been delivered; the
      insufficient-buffer code says that a matching entry is left and did not fit alone. */
  lemma ScanEnds(start: EnumSession, matches: (string, string) -> bool, calls: seq<Call>)
    requires calls != [] && IsScan(start, matches, calls)
    requires calls[0].restart || (start.index == 0 && !start.searchCaptured)
    ensures var all := Selection(start.entries, 0, Captured(calls[0].pattern), matches);
            var last := calls[|calls| - 1];
            && (last.result == S_OK && last.emitted == [] ==> Emitted(calls) == all)
            && (last.result == InsufficientBuffer ==>
                  && last.emitted == [] && |Emitted(calls)| < |all|
                  && last.answer([], all[|Emitted(calls)|]) == Full)
  {
    hide Pending, Selection, Scanning;
    ScanDelivers(start, matches, calls);
    var last := calls[|calls| - 1];
    var left := Pending(last.after, matches);
    var all := Selection(start.entries, 0, Captured(calls[0].pattern), matches);
    if left != [] {
      assert all[|Emitted(calls)|] == left[0];
    }
  }

  /** If every buffer takes at least one entry, each call gets on until nothing is left. */
  lemma {:induction false} ScanGetsOn(start: EnumSession, matches: (string, string) -> bool, calls: seq<Call>)
    requires IsScan(start, matches, calls)
    requires calls != [] ==> calls[0].restart || (start.index == 0 && !start.searchCaptured)
    requires forall k | 0 <= k < |calls| :: forall e :: calls[k].answer([], e) == Added
    ensures calls != [] ==>
              var all := Selection(start.entries, 0, Captured(calls[0].pattern), matches);
              |Emitted(calls)| >= Min(|calls|, |all|) && (|calls| >= |all| ==> Emitted(calls) == all)
    decreases |calls|
  {
    if calls != [] {
      hide Pending, Selection, Scanning;
      var earlier, last := calls[..|calls| - 1], calls[|calls| - 1];
      ScanDelivers(start, matches, calls);
      ScanGetsOn(start, matches, earlier);
      var left := Pending(last.after, matches);
      if left != [] {
        assert last.answer([], left[0]) == Added;
      }
    }
  }

  // ---- Which entries those are ----

  /** `js` are the numbers of exactly the entries from `i` on that match the pattern of the scan, in
      order; no pattern, or an empty one, matches everything. */
  ghost predicate Matching(entries: seq<Entry>, i: nat, pattern: Option<string>, matches: (string, string) -> bool,
                           js: seq<nat>)
  {
    && (forall k | 0 <= k < |js| :: i <= js[k] < |entries|)
    && (forall k, l | 0 <= k < l < |js| :: js[k] < js[l])
    && (forall j | i <= j < |entries| ::
          j in js <==> pattern == None || pattern == Some("") || matches(entries[j].name, pattern.value))
  }

  function Picked(entries: seq<Entry>, js: seq<nat>): seq<Entry>
    requires forall k | 0 <= k < |js| :: js[k] < |entries|
  {
    seq(|js|, k requires 0 <= k < |js| => entries[js[k]])
  }

  lemma PicksFirst(entries: seq<Entry>, i: nat, pattern: Option<string>, matches: (string, string) -> bool,
                 rest: seq<nat>)
    requires i < |entries| && Matching(entries, i + 1, pattern, matches, rest)
    requires Selected(Captured(pattern), matches, entries[i])
    ensures Matching(entries, i, pattern, matches, [i] + rest)
    ensures Picked(entries, [i] + rest) == [entries[i]] + Picked(entries, rest)
  {
    var js := [i] + rest;
    assert forall k | 0 < k < |js| :: js[k] == rest[k - 1];
    forall j | i <= j < |entries|
      ensures j in js <==> pattern == None || pattern == Some("") || matches(entries[j].name, pattern.value)
    {
      assert j in js <==> j == i || j in rest;
    }
  }

  lemma PicksOne(entries: seq<Entry>, i: nat, pattern: Option<string>, matches: (string, string) -> bool,
                 rest: seq<nat>)
    requires i < |entries| && Matching(entries, i + 1, pattern, matches, rest)
    ensures var js := if Selected(Captured(pattern), matches, entries[i]) then [i] + rest else rest;
            && Matching(entries, i, pattern, matches, js)
            && Picked(entries, js)
               == (if Selected(Captured(pattern), matches, entries[i]) then [entries[i]] else [])
                  + Picked(entries, rest)
  {
    if Selected(Captured(pattern), matches, entries[i]) {
      PicksFirst(entries, i, pattern, matches, rest);
    }
  }

  lemma {:induction false} SelectionPicks(entries: seq<Entry>, i: nat, pattern: Option<string>,
                                          matches: (string, string) -> bool)
    returns (js: seq<nat>)
    requires i <= |entries|
    ensures Matching(entries, i, pattern, matches, js)
    ensures Selection(entries, i, Captured(pattern), matches) == Picked(entries, js)
    decreases |entries| - i
  {
    if i == |entries| {
      js := [];
    } else {
      var rest := SelectionPicks(entries, i + 1, pattern, matches);
      js := if Selected(Captured(pattern), matches, entries[i]) then [i] + rest else rest;
      PicksOne(entries, i, pattern, matches, rest);
    }
  }

  /** A scan whose first call had the pattern, and that has ended, has delivered exactly the entries
      that match it, each once and in order. */
  lemma FinishedScanDelivers(start: EnumSession, matches: (string, string) -> bool, calls: seq<Call>)
    returns (js: seq<nat>)
    requires calls != [] && IsScan(start, matches, calls)
    requires calls[0].restart || (start.index == 0 && !start.searchCaptured)
    requires calls[|calls| - 1].result == S_OK && calls[|calls| - 1].emitted == []
    ensures Matching(start.entries, 0, calls[0].pattern, matches, js)
    ensures Emitted(calls) == Picked(start.entries, js)
  {
    hide IsScan, Emitted, Matching, Selection;
    ScanEnds(start, matches, calls);
    js := SelectionPicks(start.entries, 0, calls[0].pattern, matches);
  }

  /** One that has not ended has delivered the first of them. */
  lemma ScanDeliversFirst(start: EnumSession, matches: (string, string) -> bool, calls: seq<Call>)
    returns (js: seq<nat>)
    requires calls != [] && IsScan(start, matches, calls)
    requires calls[0].restart || (start.index == 0 && !start.searchCaptured)
    ensures Matching(start.entries, 0, calls[0].pattern, matches, js)
    ensures Emitted(calls) <= Picked(start.entries, js)
  {
    hide IsScan, Emitted, Matching, Selection;
    ScanDelivers(start, matches, calls);
    js := SelectionPicks(start.entries, 0, calls[0].pattern, matches);
  }
}
