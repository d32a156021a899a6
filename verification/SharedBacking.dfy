/** The durable backing that nodes share: per replica position its bytes, its writer epoch and its
    serving marker, and the fenced handles opened over it. */
module SharedBacking {
  import opened Basics
  import opened ApplyIfNewer
  import opened MountTable

  /** One position of the backing. */
  datatype Position = Position(store: Store, durable: Epoch, marker: Option<Epoch>)

  const UNTOUCHED := Position(map[], 0, None)

  /** The fence arithmetic: an open lands strictly above the durable epoch, whatever it intended. */
  function FenceEpoch(durable: Epoch, intended: Epoch): (at: Epoch)
    ensures at > durable && at >= intended && (at == durable + 1 || at == intended)
  {
    if durable + 1 > intended then durable + 1 else intended
  }

  /** An open moves the durable epoch to where it landed. */
  function Acquired(p: Position, intended: Epoch): (Position, Epoch) {
    var at := FenceEpoch(p.durable, intended);
    (p.(durable := at), at)
  }

  /** The floor of a marker write: a recorded epoch at or above `e` stands. */
  predicate Below(marker: Option<Epoch>, e: Epoch) {
    marker.None? || marker.value < e
  }

  function Marked(p: Position, e: Epoch): Position {
    if Below(p.marker, e) then p.(marker := Some(e)) else p
  }

  /** A marker write leaves a marker no lower than either epoch, and it is one of the two. */
  lemma MarkedIsTheHigher(p: Position, e: Epoch)
    ensures
      var m := Marked(p, e).marker;
      && m.Some? && m.value >= e && (m == p.marker || m == Some(e))
      && (p.marker.Some? ==> m.value >= p.marker.value)
    ensures Marked(p, e).store == p.store && Marked(p, e).durable == p.durable
  {
  }

  predicate IsFenced(p: Position, epoch: Epoch) {
    p.durable > epoch
  }

  class Backing {
    var stores: map<ReplicaUnit, Store>
    var epochs: map<ReplicaUnit, Epoch>
    var markers: map<ReplicaUnit, Epoch>

    constructor ()
      ensures forall ru :: View(ru) == UNTOUCHED
    {
      stores, epochs, markers := map[], map[], map[];
    }

    ghost function View(ru: ReplicaUnit): Position
      reads this
    {
      Position(if ru in stores then stores[ru] else map[],
               if ru in epochs then epochs[ru] else 0,
               if ru in markers then Some(markers[ru]) else None)
    }

    twostate predicate OnlyAt(ru: ReplicaUnit)
      reads this
    {
      forall o | o != ru :: View(o) == old(View(o))
    }

    method DurableEpoch(ru: ReplicaUnit) returns (e: Epoch)
      ensures e == View(ru).durable
    {
      e := if ru in epochs then epochs[ru] else 0;
    }

    method Acquire(ru: ReplicaUnit, intended: Epoch) returns (at: Epoch)
      modifies this
      ensures (View(ru), at) == Acquired(old(View(ru)), intended) && OnlyAt(ru)
    {
      at := intended;
      var floor := (if ru in epochs then epochs[ru] else 0) + 1;
      if floor > at { at := floor; }
      epochs := epochs[ru := at];
      if ru !in stores { stores := stores[ru := map[]]; }
    }

    /** Never lowers a recorded marker. */
    method WriteServingMarker(ru: ReplicaUnit, epoch: Epoch)
      modifies this
      ensures View(ru) == Marked(old(View(ru)), epoch) && OnlyAt(ru)
    {
      if ru in markers && markers[ru] >= epoch { return; }
      markers := markers[ru := epoch];
    }

    method ReadServingMarker(ru: ReplicaUnit) returns (e: Option<Epoch>)
      ensures e == View(ru).marker
    {
      e := if ru in markers then Some(markers[ru]) else None;
    }
  }

  datatype OpenResult = OpenedAt(epoch: Epoch) | RefusedHeld(at: Epoch) | Faulted

  /** One node's factory: what it believes it holds open. */
  class Factory {
    const backing: Backing
    var held: map<ReplicaUnit, Epoch>

    constructor (b: Backing)
      ensures backing == b && held == map[]
    {
      backing := b;
      held := map[];
    }

    /** A re-open at or below the epoch already held is refused, before anything moves; otherwise the
        open cannot be refused, however stale the intended epoch. */
    method OpenReplicaUnit(ru: ReplicaUnit, epoch: Epoch, faulted: bool) returns (r: OpenResult)
      modifies this, backing
      ensures r.Faulted? <==> faulted
      ensures r.RefusedHeld? <==> !faulted && ru in old(held) && epoch <= old(held[ru])
      ensures r.OpenedAt? ==>
        && (backing.View(ru), r.epoch) == Acquired(old(backing.View(ru)), epoch)
        && backing.OnlyAt(ru) && held == old(held)[ru := r.epoch]
      ensures !r.OpenedAt? ==> held == old(held) && forall o :: backing.View(o) == old(backing.View(o))
    {
      if faulted { return Faulted; }
      if ru in held && epoch <= held[ru] { return RefusedHeld(held[ru]); }
      var at := backing.Acquire(ru, epoch);
      held := held[ru := at];
      r := OpenedAt(at);
    }

    /** Releasing never lowers the durable epoch and keeps the bytes. */
    method CloseReplicaUnit(ru: ReplicaUnit)
      modifies this
      ensures held == old(held) - {ru}
    {
      held := held - {ru};
    }
  }

  /** The write half of one opened position. */
  class FencedBackend {
    const backing: Backing
    const unit: ReplicaUnit
    const epoch: Epoch

    constructor (b: Backing, ru: ReplicaUnit, at: Epoch)
      ensures backing == b && unit == ru && epoch == at
    {
      backing, unit, epoch := b, ru, at;
    }

    method Put(key: Bytes, value: Bytes) returns (ok: bool)
      modifies backing
      ensures ok <==> !IsFenced(old(backing.View(unit)), epoch)
      ensures backing.OnlyAt(unit)
      ensures backing.View(unit) == old(backing.View(unit)).(
        store := if ok then old(backing.View(unit)).store[key := value] else old(backing.View(unit)).store)
    {
      var durable := backing.DurableEpoch(unit);
      if durable > epoch { return false; }
      var s := if unit in backing.stores then backing.stores[unit] else map[];
      backing.stores := backing.stores[unit := s[key := value]];
      ok := true;
    }

    method Delete(key: Bytes) returns (ok: bool)
      modifies backing
      ensures ok <==> !IsFenced(old(backing.View(unit)), epoch)
      ensures backing.OnlyAt(unit)
      ensures backing.View(unit) == old(backing.View(unit)).(
        store := if ok then old(backing.View(unit)).store - {key} else old(backing.View(unit)).store)
    {
      var durable := backing.DurableEpoch(unit);
      if durable > epoch { return false; }
      var s := if unit in backing.stores then backing.stores[unit] else map[];
      backing.stores := backing.stores[unit := s - {key}];
      ok := true;
    }
  }
}
