/** What the slot table shows of lazy snapshots, over any interleaving: who was given a snapshot has
    put it into its slot, and every snapshot is one that was mounted or opened for that id. */
module LifecycleSlots {
  import opened Prelude
  import opened Manifests
  import opened MountDirs
  import opened MountSlots
  import opened Lifecycle

  // ---- Promotion ----

  predicate HasGot(a: Access) {
    a.pc.Done? && a.pc.outcome.Got?
  }

  predicate ShowsTime(slot: Slot) {
    slot.state.Ready? ==> slot.creationTime == Some(slot.state.entry.manifest.creationTime)
  }

  /** The slot of an id that an access has been given a snapshot for is loaded, unless it is gone; and
      a loaded slot shows its manifest's time. */
  ghost predicate Promoted(s: State) {
    && (forall i | 0 <= i < |s.accesses| && HasGot(s.accesses[i]) && Live(s.tree.slots, s.accesses[i].id) ::
          s.tree.slots[s.accesses[i].id].value.state.Ready?)
    && (forall id: nat | Live(s.tree.slots, id) :: ShowsTime(s.tree.slots[id].value))
  }

  lemma KnownId(s: State, i: nat)
    requires Sound(s) && i < |s.accesses| && HasGot(s.accesses[i])
    ensures s.accesses[i].id < |s.tree.slots|
  {
    hide Inv;
    assert AccessOk(s, i);
  }

  lemma TreeChangeKeepsPromoted(s: State, s': State, op: Op)
    requires Sound(s) && Promoted(s) && !op.Promotion?
    requires s'.tree == Apply(s.tree, op) && s'.accesses == s.accesses
    ensures Promoted(s')
  {
    hide Inv, Apply, SlotOk, AccessOk, CellOk, OriginOk;
    SlotsAfter(s.tree, op);
    forall i | 0 <= i < |s'.accesses| && HasGot(s'.accesses[i]) && Live(s'.tree.slots, s'.accesses[i].id)
      ensures s'.tree.slots[s'.accesses[i].id].value.state.Ready?
    {
      KnownId(s, i);
    }
  }

  lemma WorkKeepsPromoted(s: State, i: nat, opener: Result<Manifest, ()>)
    requires Promoted(s) && i < |s.accesses|
    ensures Promoted(Work(s, i, opener))
  {}

  lemma BeginKeepsPromoted(s: State, id: nat)
    requires Promoted(s)
    ensures Promoted(s.(accesses := s.accesses + [Access(id, Start)]))
  {}

  lemma NextKeepsPromoted(s: State, e: Event)
    requires Sound(s) && Promoted(s)
    ensures Promoted(Next(s, e))
  {
    hide Sound, Promoted, Apply, Work;
    SoundTree(s);
    match e
    case Mount(app, depot, gid, manifest) =>
      TreeChangeKeepsPromoted(s, Next(s, e), Add(app, depot, gid, SnapshotEntry(s.serial, manifest)));
    case MountLazily(app, depot, gid, hint) =>
      TreeChangeKeepsPromoted(s, Next(s, e), AddLazy(app, depot, gid, |s.cells|, hint));
    case Unmounts(id) => TreeChangeKeepsPromoted(s, Next(s, e), Unmount(id));
    case Begin(id) => BeginKeepsPromoted(s, id);
    case Step(i, opener) =>
      if i < |s.accesses| {
        WorkKeepsPromoted(s, i, opener);
      }
  }

  lemma {:induction false} RunKeepsPromoted(s: State, events: seq<Event>)
    requires Sound(s) && Promoted(s)
    ensures Promoted(Lifecycle.Run(s, events))
    decreases |events|
  {
    if events != [] {
      hide Sound, Promoted, Next;
      SoundTree(s);
      NextOk(s, events[0]);
      NextKeepsPromoted(s, events[0]);
      RunKeepsPromoted(Next(s, events[0]), events[1..]);
    }
  }

  /** Once an access has been given a snapshot, the slot of its id, if it is still there, holds that
      snapshot and shows the time of its manifest, whether it was mounted lazily or not. */
  lemma GotIsPromoted(events: seq<Event>, i: nat)
    requires var s := Reached(events);
             && i < |s.accesses| && s.accesses[i].pc.Done? && s.accesses[i].pc.outcome.Got?
             && Live(s.tree.slots, s.accesses[i].id)
    ensures var s := Reached(events);
            var slot, entry := s.tree.slots[s.accesses[i].id].value, s.accesses[i].pc.outcome.entry;
            slot.state == Ready(entry) && slot.creationTime == Some(entry.manifest.creationTime)
  {
    hide Next, Lifecycle.Run;
    InitialOk();
    RunKeepsPromoted(Initial(), events);
    assert HasGot(Reached(events).accesses[i]);
    SlotsAgreeWithAccesses(events, i);
  }

  // ---- Where slots and snapshots come from ----

  /** The mount that made the slot; a pending slot shows the time it was given. */
  ghost predicate SlotAsked(done: seq<Event>, slot: Slot, origin: Option<SlotState>) {
    match origin
    case Some(Ready(entry)) => Mount(slot.app, slot.depot, slot.gid, entry.manifest) in done
    case Some(Pending(_)) =>
      exists hint :: MountLazily(slot.app, slot.depot, slot.gid, hint) in done
                     && (slot.state.Pending? ==> slot.creationTime == hint)
    case None => false
  }

  /** An opener of an access to an id with this cell returned the manifest. */
  ghost predicate WasOpened(done: seq<Event>, s: State, cell: nat, manifest: Manifest) {
    exists k: nat :: k < |s.accesses| && HasCell(s, s.accesses[k].id, cell) && Event.Step(k, Ok(manifest)) in done
  }

  ghost predicate OriginMounted(done: seq<Event>, origin: Option<SlotState>) {
    origin.Some? && origin.value.Ready? ==>
      exists app, depot, gid :: Mount(app, depot, gid, origin.value.entry.manifest) in done
  }

  ghost predicate CellOpened(done: seq<Event>, s: State, c: nat)
    requires c < |s.cells|
  {
    s.cells[c].Filled? && s.cells[c].result.Ok? ==> WasOpened(done, s, c, s.cells[c].result.value.manifest)
  }

  /** Every slot, origin and filled cell has its cause, and no two ids have one cell. */
  ghost predicate Sourced(done: seq<Event>, s: State) {
    && |s.origin| == |s.tree.slots|
    && (forall id: nat | Live(s.tree.slots, id) :: SlotAsked(done, s.tree.slots[id].value, s.origin[id]))
    && (forall id: nat | id < |s.origin| :: OriginMounted(done, s.origin[id]))
    && (forall c: nat | c < |s.cells| :: CellOpened(done, s, c))
    && (forall a: nat, b: nat, c: nat | HasCell(s, a, c) && HasCell(s, b, c) :: a == b)
  }

  lemma SlotAskedStays(done: seq<Event>, more: seq<Event>, slot: Slot, origin: Option<SlotState>)
    requires SlotAsked(done, slot, origin) && done <= more
    ensures SlotAsked(more, slot, origin)
  {}

  lemma OriginMountedStays(done: seq<Event>, more: seq<Event>, origin: Option<SlotState>)
    requires OriginMounted(done, origin) && done <= more
    ensures OriginMounted(more, origin)
  {}

  /** Accesses keep their ids, and ids their cells. */
  ghost predicate Grows(s: State, s': State) {
    && |s.accesses| <= |s'.accesses| && (forall k | 0 <= k < |s.accesses| :: s'.accesses[k].id == s.accesses[k].id)
    && |s.cells| <= |s'.cells|
    && |s.origin| <= |s'.origin| && (forall id | 0 <= id < |s.origin| :: s'.origin[id] == s.origin[id])
  }

  lemma CellOpenedStays(done: seq<Event>, more: seq<Event>, s: State, s': State, c: nat)
    requires c < |s.cells| && CellOpened(done, s, c) && done <= more && Grows(s, s') && s'.cells[c] == s.cells[c]
    ensures CellOpened(more, s', c)
  {
    if s.cells[c].Filled? && s.cells[c].result.Ok? {
      var manifest := s.cells[c].result.value.manifest;
      var k: nat :| k < |s.accesses| && HasCell(s, s.accesses[k].id, c) && Event.Step(k, Ok(manifest)) in done;
      assert Event.Step(k, Ok(manifest)) in more && HasCell(s', s'.accesses[k].id, c);
    }
  }

  lemma EmptyIsOpened(done: seq<Event>, s: State, c: nat)
    requires c < |s.cells| && s.cells[c] == Empty
    ensures CellOpened(done, s, c)
  {}

  lemma NewSlotAsked(done: seq<Event>, e: Event, slot: Slot, origin: Option<SlotState>)
    requires e in done && origin == Some(slot.state)
    requires match slot.state
             case Ready(entry) => e == Mount(slot.app, slot.depot, slot.gid, entry.manifest)
             case Pending(_) => e == MountLazily(slot.app, slot.depot, slot.gid, slot.creationTime)
    ensures SlotAsked(done, slot, origin)
  {}

  lemma NewOriginMounted(done: seq<Event>, e: Event, origin: Option<SlotState>)
    requires e in done && origin.Some?
    requires origin.value.Ready? ==>
               e.Mount? && e.manifest == origin.value.entry.manifest
    ensures OriginMounted(done, origin)
  {
    if origin.value.Ready? {
      assert Mount(e.app, e.depot, e.gid, e.manifest) in done;
    }
  }

  lemma TreeChangeKeepsSources(done: seq<Event>, e: Event, s: State, s': State, op: Op, state: SlotState)
    requires Sound(s) && Sourced(done, s) && !op.Promotion?
    requires s'.tree == Apply(s.tree, op) && s'.origin == Origins(s.origin, s'.tree.slots, state)
    requires s'.accesses == s.accesses
    requires match op
             case Add(app, depot, gid, entry) =>
               state == Ready(entry) && s'.cells == s.cells && e == Mount(app, depot, gid, entry.manifest)
             case AddLazy(app, depot, gid, cell, hint) =>
               state == Pending(|s.cells|) && cell == |s.cells| && s'.cells == s.cells + [Empty]
               && e == MountLazily(app, depot, gid, hint)
             case Unmount(_) => s'.cells == s.cells && |s'.tree.slots| == |s.tree.slots|
    ensures Sourced(done + [e], s')
  {
    hide Inv, Apply, AccessOk, CellOk, SlotOk, SlotAsked, OriginMounted, CellOpened;
    var more := done + [e];
    SlotsAfter(s.tree, op);
    forall id: nat | Live(s'.tree.slots, id) ensures SlotAsked(more, s'.tree.slots[id].value, s'.origin[id]) {
      if id < |s.tree.slots| {
        SlotAskedStays(done, more, s.tree.slots[id].value, s.origin[id]);
      } else {
        NewSlotAsked(more, e, s'.tree.slots[id].value, s'.origin[id]);
      }
    }
    forall id: nat | id < |s'.origin| ensures OriginMounted(more, s'.origin[id]) {
      if id < |s.origin| {
        OriginMountedStays(done, more, s.origin[id]);
      } else {
        NewOriginMounted(more, e, s'.origin[id]);
      }
    }
    forall c: nat | c < |s'.cells| ensures CellOpened(more, s', c) {
      if c < |s.cells| {
        CellOpenedStays(done, more, s, s', c);
      } else {
        assert CellOpened(more, s', c) by { EmptyIsOpened(more, s', c); }
      }
    }
    forall a: nat, b: nat, c: nat | HasCell(s', a, c) && HasCell(s', b, c) ensures a == b {
      if a < |s.origin| {
        assert OriginOk(s, a);
      }
      if b < |s.origin| {
        assert OriginOk(s, b);
      }
      assert a < |s.origin| && b < |s.origin| ==> HasCell(s, a, c) && HasCell(s, b, c);
    }
  }

  lemma PromotionKeepsAsked(done: seq<Event>, t: Tree, id: nat, entry: SnapshotEntry, k: nat, origin: Option<SlotState>)
    requires Live(t.slots, k) && SlotAsked(done, t.slots[k].value, origin)
    ensures var slots := Promote(t, id, entry).slots; Live(slots, k) && SlotAsked(done, slots[k].value, origin)
  {}

  lemma FilledByOpener(more: seq<Event>, s: State, i: nat, opener: Result<Manifest, ()>, c: nat)
    requires i < |s.accesses| && AccessOk(s, i) && c < |s.cells| && Work(s, i, opener).cells[c] != s.cells[c]
    requires Event.Step(i, opener) in more
    ensures CellOpened(more, Work(s, i, opener), c)
  {
    var s' := Work(s, i, opener);
    if s'.cells[c].Filled? && s'.cells[c].result.Ok? {
      assert HasCell(s', s'.accesses[i].id, c);
      assert WasOpened(more, s', c, s'.cells[c].result.value.manifest);
    }
  }

  lemma WorkKeepsSources(done: seq<Event>, s: State, i: nat, opener: Result<Manifest, ()>)
    requires Sound(s) && Sourced(done, s) && i < |s.accesses|
    ensures Sourced(done + [Event.Step(i, opener)], Work(s, i, opener))
  {
    hide Inv, SlotAsked, OriginMounted, CellOpened, WasOpened;
    var s', more := Work(s, i, opener), done + [Event.Step(i, opener)];
    assert AccessOk(s, i);
    forall id: nat | Live(s'.tree.slots, id) ensures SlotAsked(more, s'.tree.slots[id].value, s'.origin[id]) {
      SlotAskedStays(done, more, s.tree.slots[id].value, s.origin[id]);
      if s.accesses[i].pc.Opened? {
        PromotionKeepsAsked(more, s.tree, s.accesses[i].id, s.accesses[i].pc.entry, id, s.origin[id]);
      }
    }
    forall id: nat | id < |s'.origin| ensures OriginMounted(more, s'.origin[id]) {
      OriginMountedStays(done, more, s.origin[id]);
    }
    forall c: nat | c < |s'.cells| ensures CellOpened(more, s', c) {
      if s'.cells[c] == s.cells[c] {
        CellOpenedStays(done, more, s, s', c);
      } else {
        FilledByOpener(more, s, i, opener, c);
      }
    }
    forall a: nat, b: nat, c: nat | HasCell(s', a, c) && HasCell(s', b, c) ensures a == b {
      assert HasCell(s, a, c) && HasCell(s, b, c);
    }
  }

  lemma BeginKeepsSources(done: seq<Event>, s: State, id: nat)
    requires Sourced(done, s)
    ensures Sourced(done + [Begin(id)], s.(accesses := s.accesses + [Access(id, Start)]))
  {
    hide SlotAsked, OriginMounted, CellOpened;
    var s', more := s.(accesses := s.accesses + [Access(id, Start)]), done + [Begin(id)];
    forall k: nat | Live(s'.tree.slots, k) ensures SlotAsked(more, s'.tree.slots[k].value, s'.origin[k]) {
      SlotAskedStays(done, more, s.tree.slots[k].value, s.origin[k]);
    }
    forall k: nat | k < |s'.origin| ensures OriginMounted(more, s'.origin[k]) {
      OriginMountedStays(done, more, s.origin[k]);
    }
    forall c: nat | c < |s'.cells| ensures CellOpened(more, s', c) {
      CellOpenedStays(done, more, s, s', c);
    }
    forall a: nat, b: nat, c: nat | HasCell(s', a, c) && HasCell(s', b, c) ensures a == b {
      assert HasCell(s, a, c) && HasCell(s, b, c);
    }
  }

  lemma IdleKeepsSources(done: seq<Event>, s: State, e: Event)
    requires Sourced(done, s)
    ensures Sourced(done + [e], s)
  {
    hide SlotAsked, OriginMounted, CellOpened, HasCell;
    var more := done + [e];
    forall k: nat | Live(s.tree.slots, k) ensures SlotAsked(more, s.tree.slots[k].value, s.origin[k]) {
      SlotAskedStays(done, more, s.tree.slots[k].value, s.origin[k]);
    }
    forall k: nat | k < |s.origin| ensures OriginMounted(more, s.origin[k]) {
      OriginMountedStays(done, more, s.origin[k]);
    }
    forall c: nat | c < |s.cells| ensures CellOpened(more, s, c) {
      CellOpenedStays(done, more, s, s, c);
    }
  }

  lemma UnmountKeepsSources(done: seq<Event>, s: State, id: nat)
    requires Sound(s) && Sourced(done, s)
    ensures Sourced(done + [Unmounts(id)], s.(tree := Apply(s.tree, Unmount(id))))
  {
    hide Inv, AccessOk, CellOk, SlotOk, OriginOk, Sourced;
    assert |s.origin| == |s.tree.slots|;
    RemoveWorks(s.tree, id);
    TreeChangeKeepsSources(done, Unmounts(id), s, s.(tree := Apply(s.tree, Unmount(id))), Unmount(id), Pending(0));
  }

  lemma NextKeepsSources(done: seq<Event>, s: State, e: Event)
    requires Sound(s) && Sourced(done, s)
    ensures Sourced(done + [e], Next(s, e))
  {
    hide Sound, Sourced, Apply, Work;
    SoundTree(s);
    match e
    case Mount(app, depot, gid, manifest) =>
      var entry := SnapshotEntry(s.serial, manifest);
      TreeChangeKeepsSources(done, e, s, Next(s, e), Add(app, depot, gid, entry), Ready(entry));
    case MountLazily(app, depot, gid, hint) =>
      TreeChangeKeepsSources(done, e, s, Next(s, e), AddLazy(app, depot, gid, |s.cells|, hint), Pending(|s.cells|));
    case Unmounts(id) => UnmountKeepsSources(done, s, id);
    case Begin(id) => BeginKeepsSources(done, s, id);
    case Step(i, opener) =>
      if i < |s.accesses| {
        WorkKeepsSources(done, s, i, opener);
      } else {
        IdleKeepsSources(done, s, e);
      }
  }

  lemma {:induction false} RunKeepsSources(done: seq<Event>, s: State, events: seq<Event>)
    requires Sound(s) && Sourced(done, s)
    ensures Sourced(done + events, Lifecycle.Run(s, events))
    decreases |events|
  {
    if events == [] {
      assert done + events == done;
    } else {
      hide Sound, Sourced, Next, Inv;
      SoundTree(s);
      NextOk(s, events[0]);
      NextKeepsSources(done, s, events[0]);
      RunKeepsSources(done + [events[0]], Next(s, events[0]), events[1..]);
      assert done + [events[0]] + events[1..] == done + events;
    }
  }

  lemma ReachedSourced(events: seq<Event>)
    ensures Sourced(events, Reached(events))
  {
    hide Next, Lifecycle.Run;
    InitialOk();
    RunKeepsSources([], Initial(), events);
    assert [] + events == events;
  }

  /** An access is given the manifest its id was mounted with, or one that an opener returned to an
      access to the same id. */
  lemma GotWasOpened(events: seq<Event>, i: nat)
    requires var s := Reached(events); i < |s.accesses| && HasGot(s.accesses[i])
    ensures var s := Reached(events);
            var manifest := s.accesses[i].pc.outcome.entry.manifest;
            || (exists app, depot, gid :: Mount(app, depot, gid, manifest) in events)
            || (exists k: nat :: k < |s.accesses| && s.accesses[k].id == s.accesses[i].id
                                 && Event.Step(k, Ok(manifest)) in events)
  {
    hide Next, Lifecycle.Run, Inv;
    ReachedSound(events);
    ReachedSourced(events);
    var s := Reached(events);
    var id, entry := s.accesses[i].id, s.accesses[i].pc.outcome.entry;
    assert AccessOk(s, i) && OriginMounted(events, s.origin[id]);
    if s.origin[id].value.Pending? {
      var c := s.origin[id].value.cell;
      assert CellOpened(events, s, c) && HasCell(s, id, c);
      var k: nat :| k < |s.accesses| && HasCell(s, s.accesses[k].id, c)
                    && Event.Step(k, Ok(entry.manifest)) in events;
    }
  }

  /** A slot that is there was asked for under its app, depot and manifest: mounted with the manifest
      it holds, or registered lazily, and until it is loaded with the time it shows. */
  lemma SlotsWereAsked(events: seq<Event>, id: nat)
    requires Live(Reached(events).tree.slots, id)
    ensures var slot := Reached(events).tree.slots[id].value;
            || (slot.state.Ready? && Mount(slot.app, slot.depot, slot.gid, slot.state.entry.manifest) in events)
            || exists hint :: MountLazily(slot.app, slot.depot, slot.gid, hint) in events
                              && (slot.state.Pending? ==> slot.creationTime == hint)
  {
    hide Next, Lifecycle.Run, Inv;
    ReachedSound(events);
    ReachedSourced(events);
    var s := Reached(events);
    assert SlotOk(s, id) && SlotAsked(events, s.tree.slots[id].value, s.origin[id]);
  }
}
