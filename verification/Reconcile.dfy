/** One overlap reconcile pass: it brings this node's mounts and phases to the positions it owns now
    (current) and will own once draining members leave (pending). The pass is four loops over the
    mount table; its effect on each position is one function of the position's slot. */
module Reconcile {
  import opened Basics
  import opened MountTable

  datatype MarkerRead = Unreadable | NoMarker | Marker(e: Epoch)

  /** What the pass reads besides the table: both position lists, the layout and generation it runs
      under, live placement sizes, serving markers, and durable epochs (0 when unreadable). */
  datatype Inputs = Inputs(
    current: seq<ReplicaUnit>, pending: seq<ReplicaUnit>,
    layout: bool, resharding: bool, gen: nat, width: GenUnit -> nat,
    marker: ReplicaUnit -> MarkerRead, durable: ReplicaUnit -> Epoch)

  // ------------------------------------------------------------- per-position effect

  function OwnOpenEpoch(s: Slot, inp: Inputs, ru: ReplicaUnit): Epoch {
    match s.open case Some(e) => e case None => inp.durable(ru)
  }

  /** An abandoned copy is held while no successor has proved that it serves the position. */
  predicate HeldForMarker(s: Slot, inp: Inputs, ru: ReplicaUnit) {
    && inp.layout && !inp.resharding && ru.unit.gen == inp.gen && ru.replica < inp.width(ru.unit)
    && (match inp.marker(ru)
        case Unreadable => true
        case NoMarker => false
        case Marker(e) => e <= OwnOpenEpoch(s, inp, ru))
  }

  function DrainHalf(s: Slot, inp: Inputs, ru: ReplicaUnit, elsewhere: bool): Slot {
    if ru in inp.current then
      if ru in inp.pending || s.st.phase != NoPhase then s
      else ArmDrain(s, OwnOpenEpoch(s, inp, ru)).0
    else if ru in inp.pending || s.st.phase != NoPhase || elsewhere || HeldForMarker(s, inp, ru) then s
    else ForgetOpenEpoch(Unmount(s))
  }

  /** `mounted` is the snapshot taken at the start of the pass. */
  function AcquireHalf(s: Slot, mounted: bool, closed: bool): Slot {
    if mounted then DropStuckGainer(s).0
    else if IsLoser(s.st.phase) then s
    else StartAcquire(if IsGainer(s.st.phase) then s else BeginAcquire(s), closed).0
  }

  function PassSlot(s: Slot, inp: Inputs, ru: ReplicaUnit, elsewhere: bool, closed: bool): Slot {
    if s.mount.Some? then
      var r := if ru in inp.current && ru in inp.pending then ReclaimDrain(s) else s;
      var d := DrainHalf(r, inp, ru, elsewhere);
      if ru in inp.pending then AcquireHalf(d, true, closed) else d
    else if ru in inp.pending then AcquireHalf(s, false, closed)
    else s
  }

  /** This node wants `ru`'s unit at another position that is not in `mounted`. */
  predicate Elsewhere(inp: Inputs, mounted: set<ReplicaUnit>, ru: ReplicaUnit) {
    exists c | c in inp.current + inp.pending :: c.unit == ru.unit && c != ru && c !in mounted
  }

  /** Every position of one node at one time. */
  datatype Node = Node(slots: map<ReplicaUnit, Slot>, closed: bool)

  function At(n: Node, ru: ReplicaUnit): Slot {
    if ru in n.slots then n.slots[ru] else EMPTY
  }

  function MountedIn(n: Node): set<ReplicaUnit> {
    set ru | ru in n.slots && n.slots[ru].mount.Some?
  }

  /** What one pass over `n` leaves. */
  ghost predicate PassedTo(n: Node, inp: Inputs, after: Node) {
    && after.closed == n.closed
    && forall ru :: At(after, ru) == PassSlot(At(n, ru), inp, ru, Elsewhere(inp, MountedIn(n), ru), n.closed)
  }

  ghost function Snapshot(t: Table): Node
    reads t
  {
    Node(map ru | ru in t.mounts.Keys + t.phases.Keys + t.inFlight + t.openEpochs.Keys :: t.SlotOf(ru), t.closed)
  }

  // ------------------------------------------------------------------- the pass

  method DesiresUnitElsewhere(cands: seq<ReplicaUnit>, mounted: set<ReplicaUnit>, ru: ReplicaUnit) returns (b: bool)
    ensures b <==> exists c | c in cands :: c.unit == ru.unit && c != ru && c !in mounted
  {
    for i := 0 to |cands|
      invariant forall c | c in cands[..i] :: !(c.unit == ru.unit && c != ru && c !in mounted)
    {
      if cands[i].unit == ru.unit && cands[i] != ru && cands[i] !in mounted { return true; }
    }
    return false;
  }

  method OwnEpochOf(t: Table, inp: Inputs, ru: ReplicaUnit) returns (e: Epoch)
    ensures e == OwnOpenEpoch(t.SlotOf(ru), inp, ru)
  {
    e := if ru in t.openEpochs then t.openEpochs[ru] else inp.durable(ru);
  }

  method HeldForMissingSuccessorMarker(t: Table, inp: Inputs, ru: ReplicaUnit) returns (held: bool)
    ensures held == HeldForMarker(t.SlotOf(ru), inp, ru)
  {
    if !inp.layout { return false; }
    if inp.resharding { return false; }
    if ru.unit.gen != inp.gen { return false; }
    if ru.replica >= inp.width(ru.unit) { return false; }
    var own := OwnEpochOf(t, inp, ru);
    match inp.marker(ru)
    case Unreadable => return true;
    case NoMarker => return false;
    case Marker(e) => return e <= own;
  }

  method ReclaimLoop(t: Table, inp: Inputs, mounted: set<ReplicaUnit>)
    requires forall ru | ru in mounted :: t.SlotOf(ru).mount.Some?
    modifies t
    ensures t.closed == old(t.closed)
    ensures forall ru ::
      t.SlotOf(ru) == (if ru in mounted && ru in inp.current && ru in inp.pending then ReclaimDrain(old(t.SlotOf(ru)))
                       else old(t.SlotOf(ru)))
  {
    var todo := mounted;
    while todo != {}
      invariant t.closed == old(t.closed) && todo <= mounted
      invariant forall ru ::
        t.SlotOf(ru) == (if ru in mounted - todo && ru in inp.current && ru in inp.pending
                         then ReclaimDrain(old(t.SlotOf(ru))) else old(t.SlotOf(ru)))
    {
      var ru :| ru in todo;
      todo := todo - {ru};
      if ru !in inp.current { continue; }
      if ru !in inp.pending { continue; }
      var st := t.PhaseOf(ru);
      if IsLoser(st.phase) { t.ReclaimDrainAt(ru); }
    }
  }

  method DrainOne(t: Table, inp: Inputs, mounted: set<ReplicaUnit>, ru: ReplicaUnit)
    modifies t
    ensures t.SlotOf(ru) == DrainHalf(old(t.SlotOf(ru)), inp, ru, Elsewhere(inp, mounted, ru)) && t.OnlyAt(ru)
  {
    var st := t.PhaseOf(ru);
    if ru in inp.current {
      if ru in inp.pending { return; }
      if st.phase != NoPhase { return; }
      var open := OwnEpochOf(t, inp, ru);
      var _ := t.ArmDrainAt(ru, open);
      return;
    }
    if ru in inp.pending { return; }
    if st.phase != NoPhase { return; }
    var moving := DesiresUnitElsewhere(inp.current, mounted, ru);
    if !moving { moving := DesiresUnitElsewhere(inp.pending, mounted, ru); }
    assert moving == Elsewhere(inp, mounted, ru) by {
      assert forall c :: c in inp.current + inp.pending <==> c in inp.current || c in inp.pending;
    }
    if moving { return; }
    var held := HeldForMissingSuccessorMarker(t, inp, ru);
    if held { return; }
    t.ReleaseReplicaUnit(ru);
  }

  method DrainLoop(t: Table, inp: Inputs, mounted: set<ReplicaUnit>)
    modifies t
    ensures t.closed == old(t.closed)
    ensures forall ru ::
      t.SlotOf(ru) == (if ru in mounted then DrainHalf(old(t.SlotOf(ru)), inp, ru, Elsewhere(inp, mounted, ru))
                       else old(t.SlotOf(ru)))
  {
    var todo := mounted;
    while todo != {}
      invariant t.closed == old(t.closed) && todo <= mounted
      invariant forall ru ::
        t.SlotOf(ru) == (if ru in mounted - todo then DrainHalf(old(t.SlotOf(ru)), inp, ru, Elsewhere(inp, mounted, ru))
                         else old(t.SlotOf(ru)))
    {
      var ru :| ru in todo;
      todo := todo - {ru};
      DrainOne(t, inp, mounted, ru);
    }
  }

  /** The marker published with a slot's acquire half: when it finishes a stuck flip of a mounted
      position, this node's own epoch. */
  function FlipMark(s: Slot, mounted: bool, inp: Inputs, ru: ReplicaUnit): Option<Epoch> {
    if mounted && DropStuckGainer(s).1 then Some(OwnOpenEpoch(s, inp, ru)) else None
  }

  method AcquireOne(t: Table, inp: Inputs, ru: ReplicaUnit, mounted: bool) returns (published: Option<Epoch>)
    modifies t
    ensures t.SlotOf(ru) == AcquireHalf(old(t.SlotOf(ru)), mounted, t.closed) && t.OnlyAt(ru)
    ensures published == FlipMark(old(t.SlotOf(ru)), mounted, inp, ru)
  {
    published := None;
    if mounted {
      var flipped := t.DropStuckGainerAt(ru);
      if flipped {
        var e := OwnEpochOf(t, inp, ru);
        published := Some(e);
      }
      return;
    }
    var st := t.PhaseOf(ru);
    if IsLoser(st.phase) { return; }
    if IsGainer(st.phase) {
      var _ := t.StartAcquireAt(ru);
      return;
    }
    t.SetPhaseAcquiring(ru);
    var _ := t.StartAcquireAt(ru);
  }

  function MarkIn(published: map<ReplicaUnit, Epoch>, ru: ReplicaUnit): Option<Epoch> {
    if ru in published then Some(published[ru]) else None
  }

  /** A slot and its marker after an acquire loop that does or does not take the position up. */
  function AfterAcquire(s: Slot, taken: bool, mounted: bool, closed: bool, inp: Inputs, ru: ReplicaUnit)
    : (Slot, Option<Epoch>)
  {
    if taken then (AcquireHalf(s, mounted, closed), FlipMark(s, mounted, inp, ru)) else (s, None)
  }

  lemma AcquireTwice(s: Slot, mounted: bool, closed: bool, inp: Inputs, ru: ReplicaUnit)
    ensures var once := AcquireHalf(s, mounted, closed);
            AcquireHalf(once, mounted, closed) == once && FlipMark(once, mounted, inp, ru) == None
  {
  }

  /** Both acquire loops: over pending skipping current, and over current skipping non-pending. A
      position listed twice is taken up once. */
  method AcquireLoop(t: Table, inp: Inputs, list: seq<ReplicaUnit>, skip: seq<ReplicaUnit>, skipIn: bool,
                     mounted: set<ReplicaUnit>)
    returns (published: map<ReplicaUnit, Epoch>)
    modifies t
    ensures t.closed == old(t.closed)
    ensures forall ru ::
      (t.SlotOf(ru), MarkIn(published, ru))
      == AfterAcquire(old(t.SlotOf(ru)), ru in list && (ru in skip) != skipIn, ru in mounted, t.closed, inp, ru)
  {
    published := map[];
    for i := 0 to |list|
      invariant t.closed == old(t.closed)
      invariant forall ru ::
        (t.SlotOf(ru), MarkIn(published, ru))
        == AfterAcquire(old(t.SlotOf(ru)), ru in list[..i] && (ru in skip) != skipIn, ru in mounted, t.closed, inp, ru)
    {
      assert list[..i + 1] == list[..i] + [list[i]];
      if (list[i] in skip) != skipIn {
        AcquireTwice(old(t.SlotOf(list[i])), list[i] in mounted, t.closed, inp, list[i]);
        var e := AcquireOne(t, inp, list[i], list[i] in mounted);
        if e.Some? { published := published[list[i] := e.value]; }
      }
    }
    assert list[..|list|] == list;
  }

  /** The marker a pass publishes for a position, from the slot it starts with. */
  function PassMark(s: Slot, inp: Inputs, ru: ReplicaUnit): Option<Epoch> {
    if ru in inp.pending then FlipMark(s, s.mount.Some?, inp, ru) else None
  }

  /** The four loops in turn are the pass, on one position. */
  lemma LoopsArePass(s: Slot, inp: Inputs, ru: ReplicaUnit, elsewhere: bool, closed: bool)
    ensures
      var m, cur, pend := s.mount.Some?, ru in inp.current, ru in inp.pending;
      var s1 := if m && cur && pend then ReclaimDrain(s) else s;
      var s2 := if m then DrainHalf(s1, inp, ru, elsewhere) else s1;
      var (s3, p) := AfterAcquire(s2, pend && !cur, m, closed, inp, ru);
      var (s4, q) := AfterAcquire(s3, cur && pend, m, closed, inp, ru);
      s4 == PassSlot(s, inp, ru, elsewhere, closed) && PassMark(s, inp, ru) == if q.Some? then q else p
  {
  }

  lemma SnapshotAt(t: Table, ru: ReplicaUnit)
    ensures At(Snapshot(t), ru) == t.SlotOf(ru)
  {
  }

  /** The whole pass, and the markers it publishes: exactly for the stuck flips it finishes, at this
      node's own epoch. */
  method ReconcilePass(t: Table, inp: Inputs) returns (published: map<ReplicaUnit, Epoch>)
    modifies t
    ensures PassedTo(old(Snapshot(t)), inp, Snapshot(t))
    ensures forall ru :: MarkIn(published, ru) == PassMark(old(t.SlotOf(ru)), inp, ru)
  {
    forall ru ensures At(Snapshot(t), ru) == t.SlotOf(ru) { SnapshotAt(t, ru); }
    var mounted := t.MountedList();
    assert mounted == MountedIn(Snapshot(t));
    published := FourLoops(t, inp, mounted);
    forall ru ensures At(Snapshot(t), ru) == t.SlotOf(ru) { SnapshotAt(t, ru); }
  }

  method FourLoops(t: Table, inp: Inputs, mounted: set<ReplicaUnit>) returns (published: map<ReplicaUnit, Epoch>)
    requires forall ru :: ru in mounted <==> t.SlotOf(ru).mount.Some?
    modifies t
    ensures t.closed == old(t.closed)
    ensures forall ru ::
      && t.SlotOf(ru) == PassSlot(old(t.SlotOf(ru)), inp, ru, Elsewhere(inp, mounted, ru), t.closed)
      && MarkIn(published, ru) == PassMark(old(t.SlotOf(ru)), inp, ru)
  {
    ReclaimLoop(t, inp, mounted);
    DrainLoop(t, inp, mounted);
    var p := AcquireLoop(t, inp, inp.pending, inp.current, true, mounted);
    var q := AcquireLoop(t, inp, inp.current, inp.pending, false, mounted);
    published := p + q;
    forall ru
      ensures t.SlotOf(ru) == PassSlot(old(t.SlotOf(ru)), inp, ru, Elsewhere(inp, mounted, ru), t.closed)
      ensures MarkIn(published, ru) == PassMark(old(t.SlotOf(ru)), inp, ru)
    {
      LoopsArePass(old(t.SlotOf(ru)), inp, ru, Elsewhere(inp, mounted, ru), t.closed);
      assert MarkIn(published, ru) == if MarkIn(q, ru).Some? then MarkIn(q, ru) else MarkIn(p, ru);
    }
  }

  // ------------------------------------------------------------- what a pass promises

  predicate Desired(inp: Inputs, ru: ReplicaUnit) {
    ru in inp.current || ru in inp.pending
  }

  /** A live successor could exist for the position: it is a replica of the current generation. */
  predicate HasSuccessor(inp: Inputs, ru: ReplicaUnit) {
    inp.layout && !inp.resharding && ru.unit.gen == inp.gen && ru.replica < inp.width(ru.unit)
  }

  /** `own` is this node's own open epoch of the position: the recorded one if there is a record, and
      only otherwise the durable one, which a successor's open raises. */
  predicate IsOwn(s: Slot, inp: Inputs, ru: ReplicaUnit, own: Epoch) {
    if s.open.Some? then own == s.open.value else own == inp.durable(ru)
  }

  /** A pass takes a mount out exactly when it is wanted in neither set, is in no transition, its unit is
      not wanted at another unmounted position, and, where a live successor could exist, a marker was
      read that stands strictly above this node's own epoch or none was ever written. */
  lemma PassReleasesIff(n: Node, inp: Inputs, after: Node, ru: ReplicaUnit, own: Epoch)
    requires PassedTo(n, inp, after) && At(n, ru).mount.Some? && IsOwn(At(n, ru), inp, ru, own)
    ensures At(after, ru).mount.None? <==>
      && ru !in inp.current && ru !in inp.pending && At(n, ru).st.phase == NoPhase
      && (forall c | c in inp.current || c in inp.pending ::
            c.unit == ru.unit && c != ru ==> c in MountedIn(n))
      && (HasSuccessor(inp, ru) ==>
            inp.marker(ru) == NoMarker || (inp.marker(ru).Marker? && inp.marker(ru).e > own))
    ensures At(after, ru).mount.Some? ==> At(after, ru).mount == At(n, ru).mount && At(after, ru).open == At(n, ru).open
    ensures At(after, ru).mount.None? ==> At(after, ru).open.None?
  {
    if Elsewhere(inp, MountedIn(n), ru) {
      var c :| c in inp.current + inp.pending && c.unit == ru.unit && c != ru && c !in MountedIn(n);
      assert c in inp.current || c in inp.pending;
    } else {
      forall c | (c in inp.current || c in inp.pending) && c.unit == ru.unit && c != ru ensures c in MountedIn(n) {
        assert c in inp.current + inp.pending;
      }
    }
  }

  /** A pass mounts nothing itself. */
  lemma PassMountsNothing(n: Node, inp: Inputs, after: Node, ru: ReplicaUnit)
    requires PassedTo(n, inp, after)
    ensures At(after, ru).mount == At(n, ru).mount || At(after, ru).mount.None?
    ensures At(n, ru).mount.Some? && At(after, ru).mount.None? ==> !Desired(inp, ru)
  {
  }

  /** A pass publishes a marker exactly for the mounted pending positions stuck in a gainer phase with no
      acquire in flight, at this node's own epoch, and leaves them in no phase. */
  lemma PassPublishesIff(n: Node, inp: Inputs, after: Node, ru: ReplicaUnit, own: Epoch)
    requires PassedTo(n, inp, after) && IsOwn(At(n, ru), inp, ru, own)
    ensures var s := At(n, ru);
            var stuck := ru in inp.pending && s.mount.Some? && s.st.phase in {Acquiring, Ready} && !s.inFlight;
            && PassMark(s, inp, ru) == (if stuck then Some(own) else None)
            && (stuck ==> At(after, ru).st == STEADY)
  {
  }

  /** What one pass does to a position, case by case. Mounted and owned now and later: a drain is called
      off, a stuck gainer settled. Owned now only: a drain is armed at the own epoch unless one is under
      way. Owned later only: a stuck gainer settled. Unmounted and owned later: an acquire is begun, or
      driven again, unless a drain is still finishing. Everything else is left as it is, but for the
      release of an abandoned mount (PassReleasesIff). */
  lemma PassIs(n: Node, inp: Inputs, after: Node, ru: ReplicaUnit, own: Epoch)
    requires PassedTo(n, inp, after) && IsOwn(At(n, ru), inp, ru, own)
    ensures
      var s, t, cur, pend := At(n, ru), At(after, ru), ru in inp.current, ru in inp.pending;
      var stuck := s.st.phase in {Acquiring, Ready} && !s.inFlight;
      var losing := s.st.phase in {Draining, Releasing};
      if s.mount.Some? then
        if cur && pend then t == if losing || stuck then s.(st := STEADY) else s
        else if cur then t == if s.st.phase == NoPhase then s.(st := HandoffState(Draining, own)) else s
        else if pend then t == if stuck then s.(st := STEADY) else s
        else t == if t.mount.None? then s.(mount := None, open := None) else s
      else if pend && !losing then
        t == s.(st := if s.st.phase == NoPhase then HandoffState(Acquiring, 0) else s.st,
                inFlight := s.inFlight || !n.closed)
      else t == s
  {
  }

  /** A pass starts opens for unmounted pending positions only, and, unless the node is closing, for
      every one of them that is not still finishing a drain. */
  lemma PassStartsIff(n: Node, inp: Inputs, after: Node, ru: ReplicaUnit)
    requires PassedTo(n, inp, after) && !At(n, ru).inFlight
    ensures At(after, ru).inFlight <==>
      ru in inp.pending && At(n, ru).mount.None? && !IsLoser(At(n, ru).st.phase) && !n.closed
    ensures At(after, ru).inFlight ==> IsGainer(At(after, ru).st.phase)
  {
  }

  /** A position owned now and later is never left draining, and one owned now but not later is never
      left serving outside a transition. */
  lemma PassSettlesPhases(n: Node, inp: Inputs, after: Node, ru: ReplicaUnit, own: Epoch)
    requires PassedTo(n, inp, after) && At(n, ru).mount.Some? && ru in inp.current && IsOwn(At(n, ru), inp, ru, own)
    ensures ru in inp.pending ==> !IsLoser(At(after, ru).st.phase)
    ensures ru !in inp.pending ==> At(after, ru).st.phase != NoPhase
    ensures ru !in inp.pending && At(n, ru).st.phase == NoPhase ==>
      At(after, ru).st == HandoffState(Draining, own)
  {
  }

  /** If the node still wants a unit and had any copy of it mounted, it has one mounted afterwards. */
  lemma PassKeepsACopy(n: Node, inp: Inputs, after: Node, want: ReplicaUnit, have: ReplicaUnit)
    requires PassedTo(n, inp, after)
    requires Desired(inp, want) && have in MountedIn(n) && have.unit == want.unit
    ensures exists ru | ru in MountedIn(after) :: ru.unit == want.unit
  {
    PassMountsNothing(n, inp, after, have);
    PassMountsNothing(n, inp, after, want);
    if have !in MountedIn(after) {
      assert want in inp.current + inp.pending;
      assert !Elsewhere(inp, MountedIn(n), have);
      assert want in MountedIn(n);
      assert want in MountedIn(after);
    }
  }

  /** A second pass over the same inputs finds nothing to do and publishes nothing. */
  lemma PassIsIdempotent(n: Node, inp: Inputs, once: Node, twice: Node, ru: ReplicaUnit)
    requires PassedTo(n, inp, once) && PassedTo(once, inp, twice)
    ensures At(twice, ru) == At(once, ru) && twice.closed == once.closed
    ensures PassMark(At(once, ru), inp, ru) == None
  {
    forall c | c in inp.current + inp.pending ensures c in MountedIn(once) <==> c in MountedIn(n) {
      PassMountsNothing(n, inp, once, c);
    }
    assert Elsewhere(inp, MountedIn(once), ru) == Elsewhere(inp, MountedIn(n), ru);
  }
}
