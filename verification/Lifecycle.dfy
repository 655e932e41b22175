/** Lazy snapshots over any interleaving: accesses that look a slot up, fill its cell and promote
    it, while slots are added and removed. One event is one step under the tree's lock, or one
    step of a cell. */
module Lifecycle {
  import opened Prelude
  import opened Manifests
  import opened MountDirs
  import opened MountSlots

  /** The once-cell of a lazy slot: at most one task fills it, once; a failure fills it too. */
  datatype Cell = Empty | Opening(opener: nat) | Filled(result: Result<SnapshotEntry, ()>)

  datatype Outcome = Got(entry: SnapshotEntry) | OpenFailed | Missing

  /** Where an access to snapshot `id` stands. */
  datatype Pc =
    | Start
    | AtCell(cell: nat)
    | InOpener(cell: nat)
    | Opened(entry: SnapshotEntry)
    | Done(outcome: Outcome)

  datatype Access = Access(id: nat, pc: Pc)

  /** `opens` counts the calls of each cell's opener; `origin` is what each id was created with;
      `serial` numbers allocations. All three only record what happened. */
  datatype State = State(tree: Tree, cells: seq<Cell>, accesses: seq<Access>,
                         opens: seq<nat>, origin: seq<Option<SlotState>>, serial: nat)

  datatype Event =
    | Mount(app: nat, depot: nat, gid: nat, manifest: Manifest)
    | MountLazily(app: nat, depot: nat, gid: nat, hint: Option<nat>)
    | Unmounts(removed: nat)
    | Begin(snapshot: nat)
    | Step(access: nat, opener: Result<Manifest, ()>)

  function Initial(): State {
    State(NewTree(), [], [], [], [None], 0)
  }

  /** `origin` after a change of the slot table: a new id gets what it was created with. */
  function Origins(origin: seq<Option<SlotState>>, slots: seq<Option<Slot>>, state: SlotState): seq<Option<SlotState>> {
    if |slots| > |origin| then origin + [Some(state)] else origin
  }

  function Goto(s: State, i: nat, pc: Pc): State
    requires i < |s.accesses|
  {
    s.(accesses := s.accesses[i := Access(s.accesses[i].id, pc)])
  }

  function StartOpening(s: State, i: nat, cell: nat): State
    requires i < |s.accesses| && cell < |s.cells|
  {
    var opens := if cell < |s.opens| then s.opens[cell := s.opens[cell] + 1] else s.opens;
    Goto(s.(cells := s.cells[cell := Opening(i)], opens := opens), i, InOpener(cell))
  }

  function FinishOpening(s: State, i: nat, cell: nat, opener: Result<Manifest, ()>): State
    requires i < |s.accesses| && cell < |s.cells|
  {
    match opener
    case Ok(manifest) =>
      var entry := SnapshotEntry(s.serial, manifest);
      Goto(s.(cells := s.cells[cell := Filled(Ok(entry))], serial := s.serial + 1), i, Opened(entry))
    case Err(_) =>
      Goto(s.(cells := s.cells[cell := Filled(Err(()))]), i, Done(OpenFailed))
  }

  /** One step of access `i`. `opener` is what the opener returns if this step is its return. */
  function Work(s: State, i: nat, opener: Result<Manifest, ()>): State
    requires i < |s.accesses|
  {
    var id := s.accesses[i].id;
    match s.accesses[i].pc
    case Start =>
      if !Live(s.tree.slots, id) then Goto(s, i, Done(Missing))
      else
        (match s.tree.slots[id].value.state
         case Ready(entry) => Goto(s, i, Done(Got(entry)))
         case Pending(cell) => Goto(s, i, AtCell(cell)))
    case AtCell(cell) =>
      if cell >= |s.cells| then s
      else
        (match s.cells[cell]
         case Empty => StartOpening(s, i, cell)
         case Opening(_) => s
         case Filled(Ok(entry)) => Goto(s, i, Opened(entry))
         case Filled(Err(_)) => Goto(s, i, Done(OpenFailed)))
    case InOpener(cell) => if cell >= |s.cells| then s else FinishOpening(s, i, cell, opener)
    case Opened(entry) => Goto(s.(tree := Promote(s.tree, id, entry)), i, Done(Got(entry)))
    case Done(_) => s
  }

  function Next(s: State, e: Event): State
    requires Inv(s.tree)
  {
    match e
    case Mount(app, depot, gid, manifest) =>
      var entry := SnapshotEntry(s.serial, manifest);
      var tree := Apply(s.tree, Add(app, depot, gid, entry));
      s.(tree := tree, origin := Origins(s.origin, tree.slots, Ready(entry)), serial := s.serial + 1)
    case MountLazily(app, depot, gid, hint) =>
      var cell := |s.cells|;
      var tree := Apply(s.tree, AddLazy(app, depot, gid, cell, hint));
      s.(tree := tree, origin := Origins(s.origin, tree.slots, Pending(cell)),
         cells := s.cells + [Empty], opens := s.opens + [0])
    case Unmounts(id) => s.(tree := Apply(s.tree, Unmount(id)))
    case Begin(id) => s.(accesses := s.accesses + [Access(id, Start)])
    case Step(i, opener) => if i < |s.accesses| then Work(s, i, opener) else s
  }

  // ---- Invariant ----

  /** The snapshot of an id: the one it was mounted with, or the one its cell was filled with. */
  function Snapshot(cells: seq<Cell>, origin: seq<Option<SlotState>>, id: nat): Option<SnapshotEntry> {
    if id >= |origin| || origin[id] == None then None
    else
      match origin[id].value
      case Ready(entry) => Some(entry)
      case Pending(cell) =>
        if cell < |cells| && cells[cell].Filled? && cells[cell].result.Ok? then Some(cells[cell].result.value) else None
  }

  /** The cell an id was registered with holds a failure. */
  predicate FailedToOpen(cells: seq<Cell>, origin: seq<Option<SlotState>>, id: nat) {
    && id < |origin| && origin[id].Some? && origin[id].value.Pending? && origin[id].value.cell < |cells|
    && cells[origin[id].value.cell].Filled? && cells[origin[id].value.cell].result.Err?
  }

  /** The cell an id was registered with. */
  predicate HasCell(s: State, id: nat, cell: nat) {
    id < |s.origin| && s.origin[id] == Some(Pending(cell)) && cell < |s.cells|
  }

  ghost predicate SlotOk(s: State, id: nat)
    requires Live(s.tree.slots, id)
  {
    && id < |s.origin| && s.origin[id].Some?
    && var state := s.tree.slots[id].value.state;
       && (state.Ready? ==> Snapshot(s.cells, s.origin, id) == Some(state.entry))
       && (state.Pending? ==> s.origin[id] == Some(state))
  }

  ghost predicate OriginOk(s: State, id: nat)
    requires id < |s.origin|
  {
    s.origin[id].Some? && s.origin[id].value.Pending? ==> s.origin[id].value.cell < |s.cells|
  }

  ghost predicate CellOk(s: State, c: nat)
    requires c < |s.cells| == |s.opens|
  {
    && s.opens[c] == (if s.cells[c].Empty? then 0 else 1)
    && (s.cells[c].Opening? ==>
          s.cells[c].opener < |s.accesses| && s.accesses[s.cells[c].opener].pc == InOpener(c))
  }

  ghost predicate AccessOk(s: State, i: nat)
    requires i < |s.accesses|
  {
    var Access(id, pc) := s.accesses[i];
    match pc
    case Start => true
    case AtCell(c) => HasCell(s, id, c)
    case InOpener(c) => HasCell(s, id, c) && s.cells[c] == Opening(i)
    case Opened(entry) => Snapshot(s.cells, s.origin, id) == Some(entry)
    case Done(Got(entry)) => Snapshot(s.cells, s.origin, id) == Some(entry)
    case Done(OpenFailed) => FailedToOpen(s.cells, s.origin, id)
    case Done(Missing) => true
  }

  ghost predicate Sound(s: State) {
    && Inv(s.tree) && |s.origin| == |s.tree.slots| && |s.opens| == |s.cells|
    && (forall id: nat | Live(s.tree.slots, id) :: SlotOk(s, id))
    && (forall id: nat | id < |s.origin| :: OriginOk(s, id))
    && (forall c: nat | c < |s.cells| :: CellOk(s, c))
    && (forall i: nat | i < |s.accesses| :: AccessOk(s, i))
  }

  lemma InitialOk()
    ensures Sound(Initial())
  {
    NewTreeInv();
  }

  // ---- Steps ----

  /** A change that fills no cell and forgets no origin leaves what accesses know in place. */
  lemma Keeps(s: State, s': State, i: nat)
    requires Sound(s) && i < |s.accesses| && |s'.accesses| >= |s.accesses| && s'.accesses[i] == s.accesses[i]
    requires |s'.cells| >= |s.cells| && forall c | 0 <= c < |s.cells| :: s'.cells[c] == s.cells[c]
    requires |s'.origin| >= |s.origin| && forall id | 0 <= id < |s.origin| :: s'.origin[id] == s.origin[id]
    ensures AccessOk(s', i)
  {
    hide Inv;
    assert AccessOk(s, i);
    var Access(id, pc) := s.accesses[i];
    if id < |s.origin| {
      assert OriginOk(s, id);
    }
  }

  lemma SlotStays(s: State, s': State, id: nat)
    requires Sound(s) && Live(s.tree.slots, id) && Live(s'.tree.slots, id) && s'.tree.slots[id] == s.tree.slots[id]
    requires |s'.cells| >= |s.cells| && forall c | 0 <= c < |s.cells| :: s'.cells[c] == s.cells[c]
    requires |s'.origin| >= |s.origin| && forall i | 0 <= i < |s.origin| :: s'.origin[i] == s.origin[i]
    ensures SlotOk(s', id)
  {
    hide Inv;
    assert SlotOk(s, id) && OriginOk(s, id);
  }

  /** What a change of the tree does to the slots. */
  lemma SlotsAfter(t: Tree, op: Op)
    requires Inv(t) && !op.Promotion?
    ensures var slots, slots' := t.slots, Apply(t, op).slots;
            && |slots| <= |slots'| <= |slots| + 1
            && (forall id: nat | id < |slots| && Live(slots', id) :: slots'[id] == slots[id])
            && (|slots'| > |slots| ==>
                  && !op.Unmount?
                  && slots'[|slots|]
                     == Some(if op.Add? then Slot(op.app, op.depot, op.gid, Ready(op.entry),
                                                  Some(op.entry.manifest.creationTime))
                             else Slot(op.app, op.depot, op.gid, Pending(op.cell), op.hint)))
  {
    hide Inv, Reserve, Remove, Mounted;
    match op
    case Add(app, depot, gid, entry) => ReserveWorks(t, app, depot, gid, Ready(entry), None);
    case AddLazy(app, depot, gid, cell, hint) => ReserveWorks(t, app, depot, gid, Pending(cell), hint);
    case Unmount(id) => RemoveWorks(t, id);
  }

  /** Adding and removing slots, with a fresh cell for a lazy one. */
  lemma TreeChangeOk(s: State, s': State, op: Op, state: SlotState)
    requires Sound(s) && s'.tree == Apply(s.tree, op) && s'.accesses == s.accesses
    requires s'.origin == Origins(s.origin, s'.tree.slots, state)
    requires match op
             case Add(_, _, _, entry) => state == Ready(entry) && s'.cells == s.cells && s'.opens == s.opens
             case AddLazy(_, _, _, cell, _) =>
               state == Pending(|s.cells|) && cell == |s.cells|
               && s'.cells == s.cells + [Empty] && s'.opens == s.opens + [0]
             case Unmount(_) => s'.cells == s.cells && s'.opens == s.opens
             case Promotion(_, _) => false
    ensures Sound(s')
  {
    hide Inv, Apply, AccessOk, Later;
    var slots, slots' := s.tree.slots, s'.tree.slots;
    SlotsAfter(s.tree, op);
    ApplyWorks(s.tree, op);
    forall i: nat | i < |s'.accesses| ensures AccessOk(s', i) {
      Keeps(s, s', i);
    }
    forall c: nat | c < |s'.cells| ensures CellOk(s', c) {
      if c < |s.cells| {
        assert CellOk(s, c);
      }
    }
    forall id: nat | id < |s'.origin| ensures OriginOk(s', id) {
      if id < |s.origin| {
        assert OriginOk(s, id);
      }
    }
    forall id: nat | Live(slots', id) ensures SlotOk(s', id) {
      if id < |slots| {
        SlotStays(s, s', id);
      }
    }
  }

  /** A step that only moves an access to a program point that is in order. */
  lemma GotoOk(s: State, i: nat, pc: Pc)
    requires Sound(s) && i < |s.accesses| && !s.accesses[i].pc.InOpener?
    requires AccessOk(Goto(s, i, pc), i)
    ensures Sound(Goto(s, i, pc))
  {
    hide Inv, AccessOk;
    var s' := Goto(s, i, pc);
    forall j: nat | j < |s'.accesses| ensures AccessOk(s', j) {
      if j != i {
        Keeps(s, s', j);
      }
    }
    forall c: nat | c < |s'.cells| ensures CellOk(s', c) {
      assert CellOk(s, c);
    }
    forall id: nat | id < |s'.origin| ensures OriginOk(s', id) {
      assert OriginOk(s, id);
    }
    forall id: nat | Live(s'.tree.slots, id) ensures SlotOk(s', id) {
      assert SlotOk(s, id);
    }
  }

  lemma AccessElsewhere(s: State, s': State, i: nat, cell: nat, j: nat)
    requires i < |s.accesses| && cell < |s.cells| && (s.cells[cell] == Empty || s.cells[cell] == Opening(i))
    requires s'.origin == s.origin && |s'.cells| == |s.cells| && |s'.accesses| == |s.accesses|
    requires forall c | 0 <= c < |s.cells| && c != cell :: s'.cells[c] == s.cells[c]
    requires j < |s.accesses| && j != i && s'.accesses[j] == s.accesses[j] && AccessOk(s, j)
    ensures AccessOk(s', j)
  {}

  /** Starting to fill a cell, or filling it, concerns the filling access only. */
  lemma CellChangeOk(s: State, s': State, i: nat, cell: nat)
    requires Sound(s) && i < |s.accesses| && cell < |s.cells| && (s.cells[cell] == Empty || s.cells[cell] == Opening(i))
    requires s'.tree == s.tree && s'.origin == s.origin
    requires |s'.cells| == |s'.opens| == |s.cells| && |s'.accesses| == |s.accesses|
    requires s.accesses[i].pc == AtCell(cell) || s.accesses[i].pc == InOpener(cell)
    requires forall c | 0 <= c < |s.cells| && c != cell :: s'.cells[c] == s.cells[c] && s'.opens[c] == s.opens[c]
    requires forall j | 0 <= j < |s.accesses| && j != i :: s'.accesses[j] == s.accesses[j]
    requires s'.cells[cell] == Opening(i) || s'.cells[cell].Filled?
    requires CellOk(s', cell) && AccessOk(s', i)
    ensures Sound(s')
  {
    hide Inv;
    forall j: nat | j < |s'.accesses| ensures AccessOk(s', j) {
      if j != i {
        assert AccessOk(s, j);
        AccessElsewhere(s, s', i, cell, j);
      }
    }
    forall c: nat | c < |s'.cells| ensures CellOk(s', c) {
      assert CellOk(s, c);
    }
    forall id: nat | id < |s'.origin| ensures OriginOk(s', id) {
      assert OriginOk(s, id);
    }
    forall id: nat | Live(s'.tree.slots, id) ensures SlotOk(s', id) {
      assert SlotOk(s, id);
    }
  }

  lemma StartOpeningOk(s: State, i: nat, cell: nat)
    requires Sound(s) && i < |s.accesses| && s.accesses[i].pc == AtCell(cell) && HasCell(s, s.accesses[i].id, cell)
    requires s.cells[cell] == Empty
    ensures Sound(StartOpening(s, i, cell))
  {
    hide Inv;
    assert CellOk(s, cell);
    CellChangeOk(s, StartOpening(s, i, cell), i, cell);
  }

  lemma FinishOpeningOk(s: State, i: nat, cell: nat, opener: Result<Manifest, ()>)
    requires Sound(s) && i < |s.accesses| && s.accesses[i].pc == InOpener(cell) && HasCell(s, s.accesses[i].id, cell)
    requires s.cells[cell] == Opening(i)
    ensures Sound(FinishOpening(s, i, cell, opener))
  {
    hide Inv;
    assert CellOk(s, cell);
    CellChangeOk(s, FinishOpening(s, i, cell, opener), i, cell);
  }

  lemma OpenedIsSnapshot(s: State, i: nat)
    requires Sound(s) && i < |s.accesses| && s.accesses[i].pc.Opened?
    ensures Snapshot(s.cells, s.origin, s.accesses[i].id) == Some(s.accesses[i].pc.entry)
  {
    assert AccessOk(s, i);
  }

  lemma PromoteOk(s: State, i: nat, entry: SnapshotEntry)
    requires Sound(s) && i < |s.accesses| && s.accesses[i].pc == Opened(entry)
    ensures Sound(s.(tree := Promote(s.tree, s.accesses[i].id, entry)))
  {
    hide Inv, AccessOk;
    var id := s.accesses[i].id;
    var s' := s.(tree := Promote(s.tree, id, entry));
    OpenedIsSnapshot(s, i);
    PromoteKeepsInv(s.tree, id, entry);
    forall j: nat | j < |s'.accesses| ensures AccessOk(s', j) {
      Keeps(s, s', j);
    }
    forall c: nat | c < |s'.cells| ensures CellOk(s', c) {
      assert CellOk(s, c);
    }
    forall k: nat | k < |s'.origin| ensures OriginOk(s', k) {
      assert OriginOk(s, k);
    }
    forall k: nat | Live(s'.tree.slots, k) ensures SlotOk(s', k) {
      assert SlotOk(s, k);
    }
  }

  lemma WorkOk(s: State, i: nat, opener: Result<Manifest, ()>)
    requires Sound(s) && i < |s.accesses|
    ensures Sound(Work(s, i, opener))
  {
    hide Inv, Promote, StartOpening, FinishOpening;
    assert AccessOk(s, i);
    var Access(id, pc) := s.accesses[i];
    match pc
    case Start =>
      if Live(s.tree.slots, id) {
        assert SlotOk(s, id) && OriginOk(s, id);
        var state := s.tree.slots[id].value.state;
        GotoOk(s, i, if state.Ready? then Done(Got(state.entry)) else AtCell(state.cell));
      } else {
        GotoOk(s, i, Done(Missing));
      }
    case AtCell(cell) =>
      match s.cells[cell] {
       case Empty => StartOpeningOk(s, i, cell);
       case Opening(_) =>
       case Filled(Ok(entry)) => GotoOk(s, i, Opened(entry));
       case Filled(Err(_)) =>
         assert FailedToOpen(s.cells, s.origin, id);
         GotoOk(s, i, Done(OpenFailed));
      }
    case InOpener(cell) => FinishOpeningOk(s, i, cell, opener);
    case Opened(entry) =>
      PromoteOk(s, i, entry);
      GotoOk(s.(tree := Promote(s.tree, id, entry)), i, Done(Got(entry)));
    case Done(_) =>
  }

  lemma BeginOk(s: State, id: nat)
    requires Sound(s)
    ensures Sound(s.(accesses := s.accesses + [Access(id, Start)]))
  {
    hide Inv;
    var s' := s.(accesses := s.accesses + [Access(id, Start)]);
    forall j: nat | j < |s'.accesses| ensures AccessOk(s', j) {
      if j < |s.accesses| {
        Keeps(s, s', j);
      }
    }
    forall c: nat | c < |s'.cells| ensures CellOk(s', c) {
      assert CellOk(s, c);
    }
    forall k: nat | k < |s'.origin| ensures OriginOk(s', k) {
      assert OriginOk(s, k);
    }
    forall k: nat | Live(s'.tree.slots, k) ensures SlotOk(s', k) {
      assert SlotOk(s, k);
    }
  }

  lemma NextOk(s: State, e: Event)
    requires Sound(s)
    ensures Sound(Next(s, e))
  {
    hide Inv, Apply, Work, AccessOk, SlotOk, CellOk, OriginOk;
    var s' := Next(s, e);
    match e
    case Mount(app, depot, gid, manifest) =>
      var entry := SnapshotEntry(s.serial, manifest);
      TreeChangeOk(s, s', Add(app, depot, gid, entry), Ready(entry));
    case MountLazily(app, depot, gid, hint) =>
      TreeChangeOk(s, s', AddLazy(app, depot, gid, |s.cells|, hint), Pending(|s.cells|));
    case Unmounts(id) =>
      SlotsAfter(s.tree, Unmount(id));
      TreeChangeOk(s, s', Unmount(id), Pending(0));
    case Begin(id) => BeginOk(s, id);
    case Step(i, opener) =>
      if i < |s.accesses| {
        WorkOk(s, i, opener);
      }
  }

  // ---- Runs ----

  function Run(s: State, events: seq<Event>): State
    requires Sound(s)
    decreases |events|
  {
    if events == [] then s else
      NextOk(s, events[0]);
      Run(Next(s, events[0]), events[1..])
  }

  lemma SoundTree(s: State)
    requires Sound(s)
    ensures Inv(s.tree)
  {
    hide Inv;
  }

  lemma {:induction false} RunSound(s: State, events: seq<Event>)
    requires Sound(s)
    ensures Sound(Run(s, events))
    decreases |events|
  {
    hide Sound, Next;
    if events != [] {
      SoundTree(s);
      NextOk(s, events[0]);
      RunSound(Next(s, events[0]), events[1..]);
    }
  }

  function Reached(events: seq<Event>): State {
    InitialOk();
    Run(Initial(), events)
  }

  lemma ReachedSound(events: seq<Event>)
    ensures Sound(Reached(events))
  {
    InitialOk();
    RunSound(Initial(), events);
  }

  /** Over any run, no opener is called twice, and it is called if anything was got from its cell. */
  lemma OpenersRunOnce(events: seq<Event>, c: nat)
    requires c < |Reached(events).cells|
    ensures var s := Reached(events);
            |s.opens| == |s.cells| && s.opens[c] <= 1 && (s.cells[c] != Empty <==> s.opens[c] == 1)
  {
    hide Next, Inv;
    ReachedSound(events);
    assert CellOk(Reached(events), c);
  }

  /** All accesses to an id that got past looking it up end alike: with one and the same
      snapshot, or all with the failure of its one opener. */
  lemma AccessesAgree(events: seq<Event>, i: nat, j: nat)
    requires var s := Reached(events);
             && i < |s.accesses| && j < |s.accesses| && s.accesses[i].id == s.accesses[j].id
             && s.accesses[i].pc.Done? && s.accesses[j].pc.Done?
    ensures var s := Reached(events);
            var a, b := s.accesses[i].pc.outcome, s.accesses[j].pc.outcome;
            a == Missing || b == Missing || a == b
  {
    hide Next, Inv;
    ReachedSound(events);
    var s := Reached(events);
    assert AccessOk(s, i) && AccessOk(s, j);
  }

  /** The slot that is being served agrees with what accesses were given. */
  lemma SlotsAgreeWithAccesses(events: seq<Event>, i: nat)
    requires var s := Reached(events);
             && i < |s.accesses| && s.accesses[i].pc.Done? && s.accesses[i].pc.outcome.Got?
             && Live(s.tree.slots, s.accesses[i].id) && s.tree.slots[s.accesses[i].id].value.state.Ready?
    ensures var s := Reached(events);
            s.tree.slots[s.accesses[i].id].value.state.entry == s.accesses[i].pc.outcome.entry
  {
    hide Next, Inv;
    ReachedSound(events);
    var s := Reached(events);
    assert AccessOk(s, i) && SlotOk(s, s.accesses[i].id);
  }

  // ---- Removal ----

  /** Id `id` has been handed out and taken away. */
  predicate Gone(s: State, id: nat) {
    id < |s.tree.slots| && !Live(s.tree.slots, id)
  }

  /** An access to `id` that has not looked it up yet, or found it missing. */
  predicate Outside(s: State, i: nat, id: nat) {
    i < |s.accesses| && s.accesses[i].id == id ==> s.accesses[i].pc == Start || s.accesses[i].pc == Done(Missing)
  }

  lemma GoneStep(s: State, e: Event, id: nat, i: nat)
    requires Sound(s) && Gone(s, id) && Outside(s, i, id)
    ensures Gone(Next(s, e), id) && Outside(Next(s, e), i, id)
  {
    hide Sound, Inv, Apply, SlotOk, AccessOk, CellOk, OriginOk;
    SoundTree(s);
    match e
    case Mount(app, depot, gid, manifest) =>
      ApplyWorks(s.tree, Add(app, depot, gid, SnapshotEntry(s.serial, manifest)));
    case MountLazily(app, depot, gid, hint) => ApplyWorks(s.tree, AddLazy(app, depot, gid, |s.cells|, hint));
    case Unmounts(removed) => ApplyWorks(s.tree, Unmount(removed));
    case Begin(_) =>
    case Step(k, opener) =>
  }

  /** Once an id is removed no access in flight brings it back, and no later one finds it. */
  lemma {:induction false} RemovedIsGone(s: State, events: seq<Event>, id: nat, i: nat)
    requires Sound(s) && Gone(s, id) && Outside(s, i, id)
    ensures Gone(Run(s, events), id) && Outside(Run(s, events), i, id)
    decreases |events|
  {
    hide Sound, Next, Gone, Outside;
    if events != [] {
      SoundTree(s);
      NextOk(s, events[0]);
      GoneStep(s, events[0], id, i);
      RemovedIsGone(Next(s, events[0]), events[1..], id, i);
    }
  }

  // ---- Where failures come from ----

  /** An id that is mounted and not removed. */
  predicate NotRemoved(e: Event, id: nat) {
    e.Unmounts? ==> e.removed != id
  }

  predicate NotMissing(s: State, i: nat, id: nat) {
    i < |s.accesses| && s.accesses[i].id == id ==> s.accesses[i].pc != Done(Missing)
  }

  lemma KeptByApply(t: Tree, op: Op, id: nat)
    requires Inv(t) && Live(t.slots, id) && !op.Promotion? && op != Unmount(id)
    ensures Live(Apply(t, op).slots, id)
  {
    hide Inv, Reserve, Remove, Mounted;
    match op
    case Add(app, depot, gid, entry) => ReserveWorks(t, app, depot, gid, Ready(entry), None);
    case AddLazy(app, depot, gid, cell, hint) => ReserveWorks(t, app, depot, gid, Pending(cell), hint);
    case Unmount(other) => RemoveWorks(t, other);
  }

  lemma KeptStep(s: State, e: Event, id: nat, i: nat)
    requires Sound(s) && Live(s.tree.slots, id) && NotMissing(s, i, id) && NotRemoved(e, id)
    ensures Live(Next(s, e).tree.slots, id) && NotMissing(Next(s, e), i, id)
  {
    hide Sound, Inv, Apply, Reserve, Remove, Mounted;
    SoundTree(s);
    match e
    case Mount(app, depot, gid, manifest) =>
      KeptByApply(s.tree, Add(app, depot, gid, SnapshotEntry(s.serial, manifest)), id);
    case MountLazily(app, depot, gid, hint) => KeptByApply(s.tree, AddLazy(app, depot, gid, |s.cells|, hint), id);
    case Unmounts(removed) => KeptByApply(s.tree, Unmount(removed), id);
    case Begin(_) =>
    case Step(k, opener) =>
  }

  /** As long as an id is not removed, no access finds it missing. */
  lemma {:induction false} KeptIsFound(s: State, events: seq<Event>, id: nat, i: nat)
    requires Sound(s) && Live(s.tree.slots, id) && NotMissing(s, i, id)
    requires forall e | e in events :: NotRemoved(e, id)
    ensures Live(Run(s, events).tree.slots, id) && NotMissing(Run(s, events), i, id)
    decreases |events|
  {
    hide Sound, Next, NotMissing, NotRemoved;
    if events != [] {
      SoundTree(s);
      NextOk(s, events[0]);
      KeptStep(s, events[0], id, i);
      KeptIsFound(Next(s, events[0]), events[1..], id, i);
    }
  }

  /** The failures an access can end in: all filled cells hold entries, and nobody has failed. */
  ghost predicate Unfailed(s: State) {
    && (forall c | 0 <= c < |s.cells| && s.cells[c].Filled? :: s.cells[c].result.Ok?)
    && (forall i | 0 <= i < |s.accesses| :: s.accesses[i].pc != Done(OpenFailed))
  }

  predicate OpensWell(e: Event) {
    e.Step? ==> e.opener.Ok?
  }

  lemma UnfailedStep(s: State, e: Event)
    requires Sound(s) && Unfailed(s) && OpensWell(e)
    ensures Unfailed(Next(s, e))
  {
    hide Sound, Inv, Apply, Promote;
    SoundTree(s);
  }

  /** An access fails to open only if some opener has failed. */
  lemma {:induction false} FailureHasCause(s: State, events: seq<Event>)
    requires Sound(s) && Unfailed(s) && forall e | e in events :: OpensWell(e)
    ensures Unfailed(Run(s, events))
    decreases |events|
  {
    hide Sound, Next, Unfailed, OpensWell;
    if events != [] {
      SoundTree(s);
      NextOk(s, events[0]);
      UnfailedStep(s, events[0]);
      FailureHasCause(Next(s, events[0]), events[1..]);
    }
  }

  // ---- Progress ----

  function Rank(pc: Pc): nat {
    match pc
    case Start => 4
    case AtCell(_) => 3
    case InOpener(_) => 2
    case Opened(_) => 1
    case Done(_) => 0
  }

  /** Who has to move for access `i` to get on: itself, or the one filling the cell it waits at. */
  function Mover(s: State, i: nat): nat
    requires i < |s.accesses|
  {
    match s.accesses[i].pc
    case AtCell(c) => if c < |s.cells| && s.cells[c].Opening? then s.cells[c].opener else i
    case _ => i
  }

  /** Nothing gets stuck: an access that is not done, or the opener it waits for, can take a step
      that brings it nearer its end, whatever the opener returns; and no step sets anyone back. */
  lemma NoAccessIsStuck(s: State, i: nat, opener: Result<Manifest, ()>)
    requires Sound(s) && i < |s.accesses| && !s.accesses[i].pc.Done?
    ensures var m := Mover(s, i);
            && m < |s.accesses| && !s.accesses[m].pc.Done?
            && Rank(Work(s, m, opener).accesses[m].pc) < Rank(s.accesses[m].pc)
            && forall j | 0 <= j < |s.accesses| && j != m :: Work(s, m, opener).accesses[j] == s.accesses[j]
  {
    hide Inv, Promote;
    assert AccessOk(s, i);
    match s.accesses[i].pc
    case AtCell(c) => assert CellOk(s, c); assert AccessOk(s, Mover(s, i));
    case _ =>
  }
}
