/** One node's answer to which replica positions it has open, at what epoch and in what handoff
    phase: the ownership-transition state machine, its effect on one position, and the table that
    holds every position under one lock. */
module MountTable {
  import opened Basics

  type Epoch = nat

  type NodeId = nat

  datatype GenUnit = GenUnit(gen: nat, id: nat)

  datatype ReplicaUnit = ReplicaUnit(unit: GenUnit, replica: nat)

  /** One successful factory open: who opened, and the epoch the factory returned. */
  datatype Handle = Handle(opener: NodeId, epoch: Epoch)

  // --------------------------------------------------------- phase machine

  /** NoPhase is the absence of a phase entry: Owned if mounted, Absent otherwise. */
  datatype Phase = NoPhase | Acquiring | Ready | Draining | Releasing

  predicate IsGainer(p: Phase) {
    p == Acquiring || p == Ready
  }

  predicate IsLoser(p: Phase) {
    p == Draining || p == Releasing
  }

  datatype HandoffState = HandoffState(phase: Phase, openEpoch: Epoch)

  const STEADY := HandoffState(NoPhase, 0)

  function NextOnReady(from: HandoffState, at: Epoch): Option<HandoffState> {
    if from.phase == Acquiring then Some(HandoffState(Ready, at)) else None
  }

  function NextOnDrain(from: HandoffState): Option<HandoffState> {
    if from.phase == NoPhase then Some(HandoffState(Draining, 0)) else None
  }

  function NextOnRelease(from: HandoffState): Option<HandoffState> {
    if from.phase == Draining then Some(HandoffState(Releasing, from.openEpoch)) else None
  }

  /** The release predicate: draining, and a positive readiness was read. */
  predicate Releasable(st: HandoffState, ready: bool) {
    st.phase == Draining && ready
  }

  // ------------------------------------------------------- one position's slot

  /** Everything the table holds about one position. */
  datatype Slot = Slot(mount: Option<Handle>, st: HandoffState, inFlight: bool, open: Option<Epoch>)

  const EMPTY := Slot(None, STEADY, false, None)

  function ArmDrain(s: Slot, open: Epoch): (Slot, Option<Handle>) {
    if s.mount.None? || s.st.phase != NoPhase then (s, None)
    else match NextOnDrain(STEADY)
      case None => (s, None)
      case Some(next) => (s.(st := next.(openEpoch := open)), s.mount)
  }

  function ReclaimDrain(s: Slot): Slot {
    if s.mount.Some? && IsLoser(s.st.phase) then s.(st := STEADY) else s
  }

  function DropStuckGainer(s: Slot): (Slot, bool) {
    if s.inFlight || !IsGainer(s.st.phase) || s.mount.None? then (s, false)
    else (s.(st := STEADY), true)
  }

  function ClearOrphan(s: Slot): (Slot, bool) {
    if s.st.phase == Draining && s.mount.None? then (s.(st := STEADY), true) else (s, false)
  }

  datatype MountOutcome = Superseded | BlockedByDrain | PhaseResolved | MountedReady

  predicate Mounted(o: MountOutcome) {
    o == PhaseResolved || o == MountedReady
  }

  function InstallServing(s: Slot, h: Handle, closed: bool): (Slot, MountOutcome) {
    if closed then (s, Superseded)
    else if IsLoser(s.st.phase) then (s, BlockedByDrain)
    else
      var out := if NextOnReady(s.st, h.epoch).Some? then MountedReady else PhaseResolved;
      (s.(mount := Some(h), st := STEADY, open := Some(h.epoch)), out)
  }

  function ReleaseDrained(s: Slot): (Slot, Option<Handle>) {
    if s.st.phase != Draining then (s, None)
    else if s.mount.None? then (s.(st := STEADY), None)
    else if NextOnRelease(s.st).None? then (s, None)
    else (s.(mount := None, st := STEADY, open := None), s.mount)
  }

  function StartAcquire(s: Slot, closed: bool): (Slot, bool) {
    if closed || s.inFlight then (s, false) else (s.(inFlight := true), true)
  }

  function FinishAcquire(s: Slot): Slot {
    s.(inFlight := false)
  }

  function BeginAcquire(s: Slot): Slot {
    s.(st := HandoffState(Acquiring, 0))
  }

  function EvictIfSame(s: Slot, failed: Handle): (Slot, bool) {
    if IsLoser(s.st.phase) || s.mount != Some(failed) then (s, false)
    else (s.(mount := None, open := None), true)
  }

  function Unmount(s: Slot): Slot {
    s.(mount := None)
  }

  function ForgetOpenEpoch(s: Slot): Slot {
    s.(open := None)
  }

  // ------------------------------------------------------ how the slot's moves compose

  /** A drain from its arming on. The armed position still has its mount, cannot be armed again, cannot be
      evicted and takes no install; reclaiming it gives back the very slot it was armed from, and
      releasing it takes the mount and its record out, once. */
  lemma DrainCycle(s: Slot, e: Epoch, again: Epoch, h: Handle, closed: bool)
    requires s.mount.Some? && s.st == STEADY
    ensures
      var (armed, b) := ArmDrain(s, e);
      && b == s.mount && armed == s.(st := HandoffState(Draining, e))
      && ArmDrain(armed, again) == (armed, None) && EvictIfSame(armed, h) == (armed, false)
      && InstallServing(armed, h, closed) == (armed, if closed then Superseded else BlockedByDrain)
      && ClearOrphan(armed) == (armed, false) && ReclaimDrain(armed) == s
      && var (gone, taken) := ReleaseDrained(armed);
      && taken == s.mount && gone == Slot(None, STEADY, s.inFlight, None)
      && ReleaseDrained(gone) == (gone, None)
  {
  }

  /** An acquire from its start on. It is claimed once, and not on a closing node; its install mounts the
      handle under its own epoch and ends the phase; finishing gives the claim back; and evicting the
      failed handle, but no other, empties the slot again. */
  lemma AcquireCycle(h: Handle, other: Handle)
    ensures
      var begun := BeginAcquire(EMPTY);
      var (claimed, mine) := StartAcquire(begun, false);
      && StartAcquire(begun, true) == (begun, false) && mine && StartAcquire(claimed, false) == (claimed, false)
      && var (mounted, out) := InstallServing(claimed, h, false);
      && out == MountedReady && mounted == Slot(Some(h), STEADY, true, Some(h.epoch))
      && var served := FinishAcquire(mounted);
      && served == mounted.(inFlight := false)
      && EvictIfSame(served, other) == (if other == h then (EMPTY, true) else (served, false))
      && FinishAcquire(claimed) == begun
  {
  }

  /** When each move acts at all; where it does not, the slot stays as it is. */
  lemma MovesIff(s: Slot, h: Handle, e: Epoch, closed: bool)
    ensures ArmDrain(s, e).1.Some? <==> s.mount.Some? && s.st.phase == NoPhase
    ensures ArmDrain(s, e).1.None? ==> ArmDrain(s, e).0 == s
    ensures ReclaimDrain(s) != s ==> s.mount.Some? && s.st.phase in {Draining, Releasing}
    ensures DropStuckGainer(s).1 <==> s.mount.Some? && s.st.phase in {Acquiring, Ready} && !s.inFlight
    ensures DropStuckGainer(s).0 == if DropStuckGainer(s).1 then s.(st := STEADY) else s
    ensures ClearOrphan(s).1 <==> s.mount.None? && s.st.phase == Draining
    ensures ClearOrphan(s).0 == if ClearOrphan(s).1 then s.(st := STEADY) else s
    ensures var out := InstallServing(s, h, closed).1;
            && (out == Superseded <==> closed)
            && (out == BlockedByDrain <==> !closed && s.st.phase in {Draining, Releasing})
            && (out == MountedReady <==> !closed && s.st.phase == Acquiring)
    ensures ReleaseDrained(s).1.Some? <==> s.mount.Some? && s.st.phase == Draining
    ensures s.mount.None? && s.st.phase == Draining ==> ReleaseDrained(s).0 == s.(st := STEADY)
    ensures s.st.phase != Draining ==> ReleaseDrained(s).0 == s
    ensures EvictIfSame(s, h).1 <==> s.mount == Some(h) && s.st.phase !in {Draining, Releasing}
    ensures EvictIfSame(s, h).0 == if EvictIfSame(s, h).1 then s.(mount := None, open := None) else s
    ensures StartAcquire(s, closed).1 <==> !closed && !s.inFlight
  {
  }

  // ----------------------------------------------------------------- the table

  class Table {
    var mounts: map<ReplicaUnit, Handle>
    var phases: map<ReplicaUnit, HandoffState>
    var inFlight: set<ReplicaUnit>
    var openEpochs: map<ReplicaUnit, Epoch>
    var closed: bool

    constructor ()
      ensures !closed && forall ru :: SlotOf(ru) == EMPTY
    {
      mounts, phases, inFlight, openEpochs, closed := map[], map[], {}, map[], false;
    }

    ghost function SlotOf(ru: ReplicaUnit): Slot
      reads this
    {
      Slot(if ru in mounts then Some(mounts[ru]) else None,
           if ru in phases then phases[ru] else STEADY,
           ru in inFlight,
           if ru in openEpochs then Some(openEpochs[ru]) else None)
    }

    /** The call touched no position but `ru`, and not the shutdown flag. */
    twostate predicate OnlyAt(ru: ReplicaUnit)
      reads this
    {
      closed == old(closed) && forall o | o != ru :: SlotOf(o) == old(SlotOf(o))
    }

    method PhaseOf(ru: ReplicaUnit) returns (st: HandoffState)
      ensures st == SlotOf(ru).st
    {
      st := if ru in phases then phases[ru] else STEADY;
    }

    method MountedList() returns (rus: set<ReplicaUnit>)
      ensures forall ru :: ru in rus <==> SlotOf(ru).mount.Some?
    {
      rus := mounts.Keys;
    }

    method SetPhaseAcquiring(ru: ReplicaUnit)
      modifies this
      ensures SlotOf(ru) == BeginAcquire(old(SlotOf(ru))) && OnlyAt(ru)
    {
      phases := phases[ru := HandoffState(Acquiring, 0)];
    }

    /** The Owned to Draining edge at gate `open`; the mount is returned once per edge. */
    method ArmDrainAt(ru: ReplicaUnit, open: Epoch) returns (b: Option<Handle>)
      modifies this
      ensures (SlotOf(ru), b) == ArmDrain(old(SlotOf(ru)), open) && OnlyAt(ru)
    {
      if ru !in mounts { return None; }
      if ru in phases && phases[ru].phase != NoPhase { return None; }
      var next := NextOnDrain(STEADY);
      if next.None? { return None; }
      phases := phases[ru := next.value.(openEpoch := open)];
      b := Some(mounts[ru]);
    }

    method ReclaimDrainAt(ru: ReplicaUnit)
      modifies this
      ensures SlotOf(ru) == ReclaimDrain(old(SlotOf(ru))) && OnlyAt(ru)
    {
      if ru !in mounts { return; }
      if ru in phases && IsLoser(phases[ru].phase) { phases := phases - {ru}; }
    }

    method DropStuckGainerAt(ru: ReplicaUnit) returns (dropped: bool)
      modifies this
      ensures (SlotOf(ru), dropped) == DropStuckGainer(old(SlotOf(ru))) && OnlyAt(ru)
    {
      if ru in inFlight { return false; }
      if ru !in phases || !IsGainer(phases[ru].phase) { return false; }
      if ru !in mounts { return false; }
      phases := phases - {ru};
      dropped := true;
    }

    method ClearOrphanedDrain(ru: ReplicaUnit) returns (cleared: bool)
      modifies this
      ensures (SlotOf(ru), cleared) == ClearOrphan(old(SlotOf(ru))) && OnlyAt(ru)
    {
      if ru !in phases || phases[ru].phase != Draining { return false; }
      if ru in mounts { return false; }
      phases := phases - {ru};
      cleared := true;
    }

    /** The mount entry, the open epoch and the phase resolution move together; a draining position
        and a closing node refuse. */
    method InstallServingAt(ru: ReplicaUnit, h: Handle) returns (out: MountOutcome)
      modifies this
      ensures (SlotOf(ru), out) == InstallServing(old(SlotOf(ru)), h, closed) && OnlyAt(ru)
    {
      if closed { return Superseded; }
      var cur := if ru in phases then phases[ru] else STEADY;
      if IsLoser(cur.phase) { return BlockedByDrain; }
      out := MountedReady;
      if cur.phase != Acquiring {
        out := PhaseResolved;
      } else if NextOnReady(cur, h.epoch).None? {
        out := PhaseResolved;
      }
      openEpochs := openEpochs[ru := h.epoch];
      mounts := mounts[ru := h];
      phases := phases - {ru};
    }

    /** Re-checks the phase and removes the mount in one hold. */
    method ReleaseDrainedAt(ru: ReplicaUnit) returns (b: Option<Handle>)
      modifies this
      ensures (SlotOf(ru), b) == ReleaseDrained(old(SlotOf(ru))) && OnlyAt(ru)
    {
      if ru !in phases || phases[ru].phase != Draining { return None; }
      if ru !in mounts {
        phases := phases - {ru};
        return None;
      }
      if NextOnRelease(phases[ru]).None? { return None; }
      b := Some(mounts[ru]);
      mounts := mounts - {ru};
      openEpochs := openEpochs - {ru};
      phases := phases - {ru};
    }

    method StartAcquireAt(ru: ReplicaUnit) returns (mine: bool)
      modifies this
      ensures (SlotOf(ru), mine) == StartAcquire(old(SlotOf(ru)), closed) && OnlyAt(ru)
    {
      if closed { return false; }
      if ru in inFlight { return false; }
      inFlight := inFlight + {ru};
      mine := true;
    }

    method FinishAcquireAt(ru: ReplicaUnit)
      modifies this
      ensures SlotOf(ru) == FinishAcquire(old(SlotOf(ru))) && OnlyAt(ru)
    {
      inFlight := inFlight - {ru};
    }

    /** Drops the mount only if it is still the handle that failed, and never mid-drain. */
    method EvictIfSameAt(ru: ReplicaUnit, failed: Handle) returns (evicted: bool)
      modifies this
      ensures (SlotOf(ru), evicted) == EvictIfSame(old(SlotOf(ru)), failed) && OnlyAt(ru)
    {
      if ru in phases && IsLoser(phases[ru].phase) { return false; }
      if ru in mounts && mounts[ru] == failed {
        mounts := mounts - {ru};
        openEpochs := openEpochs - {ru};
        return true;
      }
      evicted := false;
    }

    /** `releaseReplicaUnit`: the entry goes first, then the recorded epoch. */
    method ReleaseReplicaUnit(ru: ReplicaUnit)
      modifies this
      ensures SlotOf(ru) == ForgetOpenEpoch(Unmount(old(SlotOf(ru)))) && OnlyAt(ru)
    {
      mounts := mounts - {ru};
      openEpochs := openEpochs - {ru};
    }

    /** Empties the mount entries and nothing else. */
    method TakeAll() returns (taken: set<ReplicaUnit>)
      modifies this
      ensures forall ru :: ru in taken <==> old(SlotOf(ru)).mount.Some?
      ensures closed == old(closed) && forall ru :: SlotOf(ru) == Unmount(old(SlotOf(ru)))
    {
      taken := {};
      while mounts != map[]
        invariant phases == old(phases) && inFlight == old(inFlight)
        invariant openEpochs == old(openEpochs) && closed == old(closed)
        invariant mounts.Keys + taken == old(mounts).Keys
        decreases mounts.Keys
      {
        var ru :| ru in mounts;
        taken := taken + {ru};
        mounts := mounts - {ru};
      }
    }
  }
}
