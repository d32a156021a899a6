/** The overlap handoff of one replica position as a transition system: any number of nodes over one
    durable backing, each with its mount-table slot, a background acquire, and a reconcile thread.
    A lock-protected section is one step; every read or write of shared storage outside a lock is a
    step of its own, and the marker write is a separate read and put. A put that failed, or whose node
    died, may still land later. Positions share no state, so a run of one position is a run of the
    system. */
module OverlapProtocol {
  import opened Basics
  import opened MountTable
  import opened SharedBacking

  /** The epoch every acquire names as its floor. */
  const BASE_EPOCH: Epoch := 1

  /** The background acquire: claimed, open returned, installed and about to read the marker, about to
      put the marker, about to give the claim back. */
  datatype AcquirePc =
    | NotAcquiring
    | Opening
    | HasOpened(h: Handle)
    | MarkRead(e: Epoch)
    | MarkPut(e: Epoch)
    | Finishing

  /** What reading the own open epoch for a drain's gate found: the recorded epoch, or none and then
      whether the durable read failed. `durable` and `served` are history: the durable epoch and the
      installs there had been at that moment. */
  datatype Gate = Gate(record: Option<Epoch>, failed: bool, durable: Epoch, served: set<Handle>)

  /** `ownOpenEpoch`: the recorded epoch, else the durable one, else 0 when that read fails. */
  function GateEpoch(k: Gate): Epoch {
    match k.record case Some(e) => e case None => if k.failed then 0 else k.durable
  }

  /** The thread holding the node's reconcile lock. A drain: the position was listed as mounted, its
      open epoch was found unrecorded, the gate is read and the drain about to be armed. A drain check:
      phase read, orphan ruled out, marker read. A stuck flip: phase dropped, epoch found unrecorded,
      unrecorded again, epoch resolved, marker found below. An abandoned release: between its two table
      calls. */
  datatype ReconcilePc =
    | Idle
    | Listed
    | Unrecorded
    | ArmAt(read: Gate)
    | Polling(gate: Epoch)
    | Checking(gate: Epoch)
    | Proved(gate: Epoch, marker: Epoch)
    | StuckDropped
    | StuckUnrecorded
    | StuckFallback
    | StuckRead(e: Epoch)
    | StuckPut(e: Epoch)
    | Forgetting

  datatype Node = Node(slot: Slot, closed: bool, acq: AcquirePc, rec: ReconcilePc)

  const FRESH := Node(EMPTY, false, NotAcquiring, Idle)

  /** The mount a drain was armed over, and the read its gate came from. */
  datatype Arming = Arming(h: Handle, read: Gate)

  /** The backing with the puts that may still land, and the history the properties speak of: who
      opened each epoch, which opens were installed as serving, how each node's current drain was armed,
      what was released, and whether every arm and every stuck flip's publish so far was safe. */
  datatype Global = Global(
    durable: Epoch, marker: Option<Epoch>, late: set<Epoch>,
    openers: map<Epoch, NodeId>, served: set<Handle>, armed: map<NodeId, Arming>, released: seq<Handle>,
    armsSafe: bool, marksSafe: bool)

  datatype State = State(nodes: map<NodeId, Node>, g: Global)

  datatype AcquireAction =
    | Start
    | Open
    | OpenFails(bumps: bool)
    | GiveUp
    | Install
    | ReadForMark
    | PutMark
    | MarkFails
    | Finish

  datatype ReconcileAction =
    | ListMounted
    | Skip
    | ReadRecord
    | ReadDurable(failed: bool)
    | Arm
    | Reclaim
    | BeginAcquiring
    | CheckPhase
    | CheckOrphan
    | CheckMarker(failed: bool)
    | Release
    | StuckDrop
    | StuckRecord
    | StuckDurable(failed: bool)
    | StuckReadForMark
    | StuckPutMark
    | StuckMarkFails
    | Abandon
    | Forget

  /** What happens to a node from outside its two threads. */
  datatype OutsideAction =
    | Evict(h: Handle)
    | CloseFlag
    | TakeMounts
    | LatePut(e: Epoch)
    | Crash

  datatype Action = Acq(q: AcquireAction) | Rec(c: ReconcileAction) | Env(o: OutsideAction)

  // ------------------------------------------------------------ the guarded arm

  /** Arming is safe when the gate it records is not below the epoch of the mount it drains. The gate
      is read before the table lock is taken, so a mount installed in between can outrun it. */
  predicate SafeArm(x: Node) {
    x.rec.ArmAt? && x.slot.st.phase == NoPhase && x.slot.mount.Some?
    ==> GateEpoch(x.rec.read) >= x.slot.mount.value.epoch
  }

  // ------------------------------------------------------------------- steps

  predicate AcquireEnabled(x: Node, q: AcquireAction) {
    match q
    case Start => x.acq == NotAcquiring && StartAcquire(x.slot, x.closed).1
    case Open => x.acq == Opening
    case OpenFails(_) => x.acq == Opening
    case GiveUp => x.acq == Opening
    case Install => x.acq.HasOpened?
    case ReadForMark => x.acq.MarkRead?
    case PutMark => x.acq.MarkPut?
    case MarkFails => x.acq.MarkRead? || x.acq.MarkPut?
    case Finish => x.acq == Finishing
  }

  function AcquireNext(g: Global, n: NodeId, x: Node, q: AcquireAction): Node
    requires AcquireEnabled(x, q)
  {
    match q
    case Start => x.(slot := StartAcquire(x.slot, x.closed).0, acq := Opening)
    case Open => x.(acq := HasOpened(Handle(n, FenceEpoch(g.durable, BASE_EPOCH))))
    case OpenFails(_) => x
    case GiveUp => x.(acq := Finishing)
    case Install =>
      var (slot, out) := InstallServing(x.slot, x.acq.h, x.closed);
      x.(slot := slot, acq := if Mounted(out) then MarkRead(x.acq.h.epoch) else Finishing)
    case ReadForMark => x.(acq := if Below(g.marker, x.acq.e) then MarkPut(x.acq.e) else Finishing)
    case PutMark => x.(acq := Finishing)
    case MarkFails => x.(acq := Finishing)
    case Finish => x.(slot := FinishAcquire(x.slot), acq := NotAcquiring)
  }

  /** A put that reports failure may land all the same. */
  function AcquireGlobal(g: Global, n: NodeId, x: Node, q: AcquireAction): Global
    requires AcquireEnabled(x, q)
  {
    match q
    case Open =>
      var e := FenceEpoch(g.durable, BASE_EPOCH);
      g.(durable := e, openers := g.openers[e := n])
    case OpenFails(bumps) => if bumps then g.(durable := FenceEpoch(g.durable, BASE_EPOCH)) else g
    case Install =>
      if Mounted(InstallServing(x.slot, x.acq.h, x.closed).1)
      then g.(served := g.served + {x.acq.h}) else g
    case PutMark => g.(marker := Some(x.acq.e))
    case MarkFails => if x.acq.MarkPut? then g.(late := g.late + {x.acq.e}) else g
    case _ => g
  }

  predicate ReconcileEnabled(x: Node, c: ReconcileAction) {
    match c
    case ListMounted => x.rec == Idle && x.slot.mount.Some?
    case Skip => x.rec == Listed
    case ReadRecord => x.rec == Listed
    case ReadDurable(_) => x.rec == Unrecorded
    case Arm => x.rec.ArmAt?
    case Reclaim => x.rec == Idle
    case BeginAcquiring => x.rec == Idle && x.slot.st.phase == NoPhase
    case CheckPhase => x.rec == Idle && x.slot.st.phase == Draining
    case CheckOrphan => x.rec.Polling?
    case CheckMarker(_) => x.rec.Checking?
    case Release => x.rec.Proved?
    case StuckDrop => x.rec == Idle && DropStuckGainer(x.slot).1
    case StuckRecord => x.rec == StuckDropped || x.rec == StuckUnrecorded
    case StuckDurable(_) => x.rec == StuckFallback
    case StuckReadForMark => x.rec.StuckRead?
    case StuckPutMark => x.rec.StuckPut?
    case StuckMarkFails => x.rec.StuckRead? || x.rec.StuckPut?
    case Abandon => x.rec == Idle && x.slot.st.phase == NoPhase
    case Forget => x.rec == Forgetting
  }

  function ReconcileNext(g: Global, x: Node, c: ReconcileAction): Node
    requires ReconcileEnabled(x, c)
  {
    match c
    case ListMounted => x.(rec := Listed)
    case Skip => x.(rec := Idle)
    case ReadRecord =>
      x.(rec := if x.slot.open.Some? then ArmAt(Gate(x.slot.open, false, g.durable, g.served)) else Unrecorded)
    case ReadDurable(failed) => x.(rec := ArmAt(Gate(None, failed, g.durable, g.served)))
    case Arm => x.(slot := ArmDrain(x.slot, GateEpoch(x.rec.read)).0, rec := Idle)
    case Reclaim => x.(slot := ReclaimDrain(x.slot))
    case BeginAcquiring => x.(slot := BeginAcquire(x.slot))
    case CheckPhase => x.(rec := Polling(x.slot.st.openEpoch))
    case CheckOrphan =>
      var (slot, cleared) := ClearOrphan(x.slot);
      x.(slot := slot, rec := if cleared then Idle else Checking(x.rec.gate))
    case CheckMarker(failed) =>
      var ready := !failed && g.marker.Some? && g.marker.value > x.rec.gate;
      x.(rec := if Releasable(HandoffState(Draining, x.rec.gate), ready)
                then Proved(x.rec.gate, g.marker.value) else Idle)
    case Release => x.(slot := ReleaseDrained(x.slot).0, rec := Idle)
    case StuckDrop => x.(slot := DropStuckGainer(x.slot).0, rec := StuckDropped)
    case StuckRecord =>
      x.(rec := if x.slot.open.Some? then StuckRead(x.slot.open.value)
                else if x.rec == StuckDropped then StuckUnrecorded else StuckFallback)
    case StuckDurable(failed) => x.(rec := StuckRead(if failed then 0 else g.durable))
    case StuckReadForMark => x.(rec := if Below(g.marker, x.rec.e) then StuckPut(x.rec.e) else Idle)
    case StuckPutMark => x.(rec := Idle)
    case StuckMarkFails => x.(rec := Idle)
    case Abandon => x.(slot := Unmount(x.slot), rec := Forgetting)
    case Forget => x.(slot := ForgetOpenEpoch(x.slot), rec := Idle)
  }

  /** A stuck flip's publish is unsafe when the durable epoch stands in for a missing record: some other
      node may have opened that epoch and not yet served it. */
  function ReconcileGlobal(g: Global, n: NodeId, x: Node, c: ReconcileAction): Global
    requires ReconcileEnabled(x, c)
  {
    match c
    case Arm =>
      (match ArmDrain(x.slot, GateEpoch(x.rec.read)).1
       case Some(h) => g.(armed := g.armed[n := Arming(h, x.rec.read)], armsSafe := g.armsSafe && SafeArm(x))
       case None => g)
    case Release =>
      (match ReleaseDrained(x.slot).1
       case Some(h) => g.(released := g.released + [h])
       case None => g)
    case StuckDurable(failed) => g.(marksSafe := g.marksSafe && failed)
    case StuckPutMark => g.(marker := Some(x.rec.e))
    case StuckMarkFails => if x.rec.StuckPut? then g.(late := g.late + {x.rec.e}) else g
    case _ => g
  }

  predicate OutsideEnabled(g: Global, x: Node, o: OutsideAction) {
    match o
    case TakeMounts => x.closed
    case LatePut(e) => e in g.late
    case _ => true
  }

  function OutsideNext(x: Node, o: OutsideAction): Node {
    match o
    case Evict(h) => x.(slot := EvictIfSame(x.slot, h).0)
    case CloseFlag => x.(closed := true)
    case TakeMounts => x.(slot := Unmount(x.slot))
    case LatePut(_) => x
    case Crash => FRESH
  }

  /** The puts a node has under way. */
  function Pending(x: Node): set<Epoch> {
    (if x.acq.MarkPut? then {x.acq.e} else {}) + (if x.rec.StuckPut? then {x.rec.e} else {})
  }

  function OutsideGlobal(g: Global, x: Node, o: OutsideAction): Global {
    match o
    case LatePut(e) => g.(marker := Some(e), late := g.late - {e})
    case Crash => g.(late := g.late + Pending(x))
    case _ => g
  }

  predicate Enabled(g: Global, x: Node, a: Action) {
    match a
    case Acq(q) => AcquireEnabled(x, q)
    case Rec(c) => ReconcileEnabled(x, c)
    case Env(o) => OutsideEnabled(g, x, o)
  }

  function NodeNext(g: Global, n: NodeId, x: Node, a: Action): Node
    requires Enabled(g, x, a)
  {
    match a
    case Acq(q) => AcquireNext(g, n, x, q)
    case Rec(c) => ReconcileNext(g, x, c)
    case Env(o) => OutsideNext(x, o)
  }

  function GlobalNext(g: Global, n: NodeId, x: Node, a: Action): Global
    requires Enabled(g, x, a)
  {
    match a
    case Acq(q) => AcquireGlobal(g, n, x, q)
    case Rec(c) => ReconcileGlobal(g, n, x, c)
    case Env(o) => OutsideGlobal(g, x, o)
  }

  // -------------------------------------------------------------------- runs

  datatype Step = Step(n: NodeId, a: Action)

  predicate CanStep(s: State, step: Step) {
    step.n in s.nodes && Enabled(s.g, s.nodes[step.n], step.a)
  }

  function Next(s: State, step: Step): State
    requires CanStep(s, step)
  {
    var x := s.nodes[step.n];
    State(s.nodes[step.n := NodeNext(s.g, step.n, x, step.a)], GlobalNext(s.g, step.n, x, step.a))
  }

  /** No node holds anything and nothing was ever opened. */
  ghost predicate Init(s: State) {
    s.g == Global(0, None, {}, map[], {}, map[], [], true, true) && forall n | n in s.nodes :: s.nodes[n] == FRESH
  }

  /** A finite run: a start and the steps taken since. Every state a run visits is the last state of
      one of its initial parts. */
  datatype Run = Begin(s: State) | Then(before: Run, step: Step)

  ghost predicate IsRun(r: Run)
    decreases r, 0
  {
    match r
    case Begin(s) => Init(s)
    case Then(before, step) => IsRun(before) && CanStep(Last(before), step)
  }

  ghost function Last(r: Run): State
    requires IsRun(r)
    decreases r, 1
  {
    match r
    case Begin(s) => s
    case Then(before, step) => Next(Last(before), step)
  }

  /** One run continues another. */
  ghost predicate Extends(r: Run, start: Run) {
    r == start || (r.Then? && Extends(r.before, start))
  }

  // ---------------------------------------------------------------- invariant

  ghost predicate Served(g: Global, e: Epoch) {
    exists h | h in g.served :: h.epoch == e
  }

  /** An epoch whose marker claims nothing, or one that was served. */
  ghost predicate Markable(g: Global, e: Epoch) {
    e == 0 || Served(g, e)
  }

  /** Nothing this node ever served is above `e`. */
  ghost predicate Latest(g: Global, n: NodeId, e: Epoch) {
    forall h | h in g.served && h.opener == n :: h.epoch <= e
  }

  /** The clauses that name `marksSafe` are what safe publishes keep; the rest is kept by every step. */
  ghost predicate GlobalInv(g: Global) {
    && (forall e | e in g.openers :: 1 <= e <= g.durable)
    && (forall h | h in g.served :: h.epoch in g.openers && g.openers[h.epoch] == h.opener)
    && (g.marksSafe && g.marker.Some? ==> Markable(g, g.marker.value))
    && (g.marksSafe ==> forall e | e in g.late :: Markable(g, e))
    && Distinct(g.released)
    && (forall h | h in g.released :: h in g.served)
  }

  ghost predicate MountInv(g: Global, n: NodeId, s: Slot) {
    && (s.mount.Some? ==>
          && s.mount.value.opener == n && s.mount.value in g.served
          && Latest(g, n, s.mount.value.epoch)
          && s.mount.value !in g.released
          && (s.open.Some? ==> s.open.value == s.mount.value.epoch))
    && (s.open.Some? ==> Handle(n, s.open.value) in g.served && Latest(g, n, s.open.value))
  }

  /** A gate's history is right: the installs it saw happened, none of them above the durable epoch it
      saw, and a record it read was the node's newest install by then. */
  ghost predicate GateInv(g: Global, n: NodeId, k: Gate) {
    && k.served <= g.served
    && (forall h | h in k.served :: h.epoch <= k.durable)
    && (k.record.Some? ==>
          Handle(n, k.record.value) in k.served
          && forall h | h in k.served && h.opener == n :: h.epoch <= k.record.value)
  }

  ghost predicate DrainInv(g: Global, n: NodeId, s: Slot) {
    && (s.st.phase in {NoPhase, Acquiring, Draining})
    && (s.st.phase == Draining && s.mount.Some? ==>
          && n in g.armed && g.armed[n].h == s.mount.value
          && s.st.openEpoch == GateEpoch(g.armed[n].read) && GateInv(g, n, g.armed[n].read))
  }

  ghost predicate AcquireInv(g: Global, n: NodeId, x: Node) {
    && (x.slot.inFlight <==> x.acq != NotAcquiring)
    && (x.acq.HasOpened? ==>
          && x.acq.h.opener == n && x.acq.h !in g.served
          && x.acq.h.epoch in g.openers && g.openers[x.acq.h.epoch] == n
          && Latest(g, n, x.acq.h.epoch))
    && (x.acq.MarkRead? || x.acq.MarkPut? ==> Handle(n, x.acq.e) in g.served)
  }

  ghost predicate ReconcileInv(g: Global, n: NodeId, x: Node) {
    match x.rec
    case ArmAt(read) => GateInv(g, n, read)
    case Polling(gate) => x.slot.st == HandoffState(Draining, gate)
    case Checking(gate) => x.slot.st == HandoffState(Draining, gate)
    case Proved(gate, m) =>
      x.slot.st == HandoffState(Draining, gate) && m > gate && (g.marksSafe ==> Served(g, m))
    case StuckRead(e) => g.marksSafe ==> Markable(g, e)
    case StuckPut(e) => g.marksSafe ==> Markable(g, e)
    case _ => true
  }

  ghost predicate NodeInv(g: Global, n: NodeId, x: Node) {
    && MountInv(g, n, x.slot) && DrainInv(g, n, x.slot)
    && AcquireInv(g, n, x) && ReconcileInv(g, n, x)
  }

  ghost predicate Inv(s: State) {
    GlobalInv(s.g) && forall n | n in s.nodes :: NodeInv(s.g, n, s.nodes[n])
  }

  // -------------------------------------------------------- invariant is kept

  /** What a step of `n` may do to the backing and the history, as far as the others can tell. */
  ghost predicate Grows(g: Global, g': Global, n: NodeId) {
    && g.durable <= g'.durable
    && g.served <= g'.served && (forall h | h in g'.served && h !in g.served :: h.opener == n)
    && (forall e | e in g.openers :: e in g'.openers && g'.openers[e] == g.openers[e])
    && (forall m | m in g.armed && m != n :: m in g'.armed && g'.armed[m] == g.armed[m])
    && (forall h | h in g'.released && h !in g.released :: h.opener == n)
    && (g'.marksSafe ==> g.marksSafe)
  }

  lemma AcquireGrows(g: Global, n: NodeId, x: Node, q: AcquireAction)
    requires GlobalInv(g) && AcquireInv(g, n, x) && AcquireEnabled(x, q)
    ensures Grows(g, AcquireGlobal(g, n, x, q), n)
  {
    assert q == Open ==> FenceEpoch(g.durable, BASE_EPOCH) !in g.openers;
  }

  lemma ReconcileGrows(g: Global, n: NodeId, x: Node, c: ReconcileAction)
    requires MountInv(g, n, x.slot) && ReconcileEnabled(x, c)
    ensures Grows(g, ReconcileGlobal(g, n, x, c), n)
  {
    match c
    case Arm =>
    case Release =>
    case _ =>
  }

  lemma StepGrows(g: Global, n: NodeId, x: Node, a: Action)
    requires GlobalInv(g) && NodeInv(g, n, x) && Enabled(g, x, a)
    ensures Grows(g, GlobalNext(g, n, x, a), n)
  {
    match a
    case Acq(q) => AcquireGrows(g, n, x, q);
    case Rec(c) => ReconcileGrows(g, n, x, c);
    case Env(_) =>
  }

  lemma ServedStays(g: Global, g': Global, e: Epoch)
    requires g.served <= g'.served
    ensures Served(g, e) ==> Served(g', e)
    ensures Markable(g, e) ==> Markable(g', e)
  {
    if Served(g, e) {
      var h :| h in g.served && h.epoch == e;
      assert h in g'.served;
    }
  }

  lemma OthersKeep(g: Global, g': Global, n: NodeId, m: NodeId, y: Node)
    requires Grows(g, g', n) && m != n && NodeInv(g, m, y)
    ensures NodeInv(g', m, y)
  {
    forall e ensures (Served(g, e) ==> Served(g', e)) && (Markable(g, e) ==> Markable(g', e)) {
      ServedStays(g, g', e);
    }
  }

  lemma MarksStay(g: Global, g': Global)
    requires GlobalInv(g) && g.served <= g'.served && (g'.marksSafe ==> g.marksSafe)
    ensures g'.marksSafe && g.marker.Some? ==> Markable(g', g.marker.value)
    ensures g'.marksSafe ==> forall e | e in g.late :: Markable(g', e)
  {
    if g.marker.Some? { ServedStays(g, g', g.marker.value); }
    forall e | e in g.late ensures Markable(g, e) ==> Markable(g', e) { ServedStays(g, g', e); }
  }

  lemma AcquireKeepsGlobal(g: Global, n: NodeId, x: Node, q: AcquireAction)
    requires GlobalInv(g) && NodeInv(g, n, x) && AcquireEnabled(x, q)
    ensures GlobalInv(AcquireGlobal(g, n, x, q))
  {
    var g' := AcquireGlobal(g, n, x, q);
    MarksStay(g, g');
    if x.acq.MarkPut? { assert Handle(n, x.acq.e) in g'.served; }
  }

  lemma AcquireKeepsMount(g: Global, n: NodeId, x: Node, q: AcquireAction)
    requires GlobalInv(g) && MountInv(g, n, x.slot) && AcquireInv(g, n, x) && AcquireEnabled(x, q)
    ensures MountInv(AcquireGlobal(g, n, x, q), n, AcquireNext(g, n, x, q).slot)
  {
    match q
    case Install => assert x.acq.h !in g.released;
    case _ =>
  }

  lemma AcquireKeepsDrain(g: Global, n: NodeId, x: Node, q: AcquireAction)
    requires DrainInv(g, n, x.slot) && AcquireEnabled(x, q)
    ensures DrainInv(AcquireGlobal(g, n, x, q), n, AcquireNext(g, n, x, q).slot)
  {
    match q
    case Install =>
    case _ =>
  }

  lemma AcquireKeepsClaim(g: Global, n: NodeId, x: Node, q: AcquireAction)
    requires GlobalInv(g) && AcquireInv(g, n, x) && AcquireEnabled(x, q)
    ensures AcquireInv(AcquireGlobal(g, n, x, q), n, AcquireNext(g, n, x, q))
  {
  }

  lemma AcquireKeepsPc(g: Global, n: NodeId, x: Node, q: AcquireAction)
    requires ReconcileInv(g, n, x) && AcquireEnabled(x, q)
    ensures ReconcileInv(AcquireGlobal(g, n, x, q), n, AcquireNext(g, n, x, q))
  {
    var g' := AcquireGlobal(g, n, x, q);
    forall e ensures (Served(g, e) ==> Served(g', e)) && (Markable(g, e) ==> Markable(g', e)) {
      ServedStays(g, g', e);
    }
  }

  lemma ReconcileKeepsGlobal(g: Global, n: NodeId, x: Node, c: ReconcileAction)
    requires GlobalInv(g) && NodeInv(g, n, x) && ReconcileEnabled(x, c)
    ensures GlobalInv(ReconcileGlobal(g, n, x, c))
  {
    var g' := ReconcileGlobal(g, n, x, c);
    MarksStay(g, g');
    if x.rec.StuckPut? { ServedStays(g, g', x.rec.e); }
  }

  lemma ReconcileKeepsMount(g: Global, n: NodeId, x: Node, c: ReconcileAction)
    requires MountInv(g, n, x.slot) && ReconcileEnabled(x, c)
    ensures MountInv(ReconcileGlobal(g, n, x, c), n, ReconcileNext(g, x, c).slot)
  {
    match c
    case Arm =>
    case Release =>
    case _ =>
  }

  lemma ReconcileKeepsDrain(g: Global, n: NodeId, x: Node, c: ReconcileAction)
    requires DrainInv(g, n, x.slot) && ReconcileInv(g, n, x) && ReconcileEnabled(x, c)
    ensures DrainInv(ReconcileGlobal(g, n, x, c), n, ReconcileNext(g, x, c).slot)
  {
    match c
    case Arm =>
    case Release =>
    case CheckOrphan =>
    case _ =>
  }

  lemma ReconcileKeepsClaim(g: Global, n: NodeId, x: Node, c: ReconcileAction)
    requires AcquireInv(g, n, x) && ReconcileEnabled(x, c)
    ensures AcquireInv(ReconcileGlobal(g, n, x, c), n, ReconcileNext(g, x, c))
  {
    var g', y := ReconcileGlobal(g, n, x, c), ReconcileNext(g, x, c);
    assert y.acq == x.acq && y.slot.inFlight == x.slot.inFlight;
    assert g'.served == g.served && g'.openers == g.openers;
  }

  lemma ReconcileKeepsPc(g: Global, n: NodeId, x: Node, c: ReconcileAction)
    requires GlobalInv(g) && NodeInv(g, n, x) && ReconcileEnabled(x, c)
    ensures ReconcileInv(ReconcileGlobal(g, n, x, c), n, ReconcileNext(g, x, c))
  {
    var g' := ReconcileGlobal(g, n, x, c);
    assert g'.served == g.served;
    if x.slot.open.Some? { assert Handle(n, x.slot.open.value) in g'.served; }
    forall e ensures Markable(g, e) ==> Markable(g', e) { ServedStays(g, g', e); }
  }

  lemma OutsideKeepsGlobal(g: Global, n: NodeId, x: Node, o: OutsideAction)
    requires GlobalInv(g) && NodeInv(g, n, x) && OutsideEnabled(g, x, o)
    ensures GlobalInv(OutsideGlobal(g, x, o))
  {
    var g' := OutsideGlobal(g, x, o);
    MarksStay(g, g');
    forall e | e in Pending(x) ensures g.marksSafe ==> Markable(g', e) {
      if x.acq.MarkPut? { assert Handle(n, x.acq.e) in g'.served; }
      ServedStays(g, g', e);
    }
  }

  lemma OutsideKeepsNode(g: Global, n: NodeId, x: Node, o: OutsideAction)
    requires GlobalInv(g) && NodeInv(g, n, x) && OutsideEnabled(g, x, o)
    ensures NodeInv(OutsideGlobal(g, x, o), n, OutsideNext(x, o))
  {
    var g' := OutsideGlobal(g, x, o);
    forall e ensures (Served(g, e) ==> Served(g', e)) && (Markable(g, e) ==> Markable(g', e)) {
      ServedStays(g, g', e);
    }
  }

  lemma OwnStep(g: Global, n: NodeId, x: Node, a: Action)
    requires GlobalInv(g) && NodeInv(g, n, x) && Enabled(g, x, a)
    ensures GlobalInv(GlobalNext(g, n, x, a)) && NodeInv(GlobalNext(g, n, x, a), n, NodeNext(g, n, x, a))
  {
    match a
    case Acq(q) =>
      AcquireKeepsGlobal(g, n, x, q);
      AcquireKeepsMount(g, n, x, q);
      AcquireKeepsDrain(g, n, x, q);
      AcquireKeepsClaim(g, n, x, q);
      AcquireKeepsPc(g, n, x, q);
    case Rec(c) =>
      ReconcileKeepsGlobal(g, n, x, c);
      ReconcileKeepsMount(g, n, x, c);
      ReconcileKeepsDrain(g, n, x, c);
      ReconcileKeepsClaim(g, n, x, c);
      ReconcileKeepsPc(g, n, x, c);
    case Env(o) =>
      OutsideKeepsGlobal(g, n, x, o);
      OutsideKeepsNode(g, n, x, o);
  }

  lemma StepKeepsInv(s: State, step: Step)
    requires Inv(s) && CanStep(s, step)
    ensures Inv(Next(s, step)) && Grows(s.g, Next(s, step).g, step.n)
  {
    var x := s.nodes[step.n];
    StepGrows(s.g, step.n, x, step.a);
    OwnStep(s.g, step.n, x, step.a);
    forall m | m in s.nodes && m != step.n ensures NodeInv(Next(s, step).g, m, s.nodes[m]) {
      OthersKeep(s.g, Next(s, step).g, step.n, m, s.nodes[m]);
    }
  }

  lemma {:induction false} RunKeepsInv(r: Run)
    requires IsRun(r)
    ensures Inv(Last(r))
  {
    match r
    case Begin(_) =>
    case Then(before, step) =>
      RunKeepsInv(before);
      StepKeepsInv(Last(before), step);
  }

  // ------------------------------------------------------------ what a release proves

  /** The handle that a drain check's release takes out of the table, if any. */
  function Released(s: State, n: NodeId): Option<Handle>
    requires CanStep(s, Step(n, Rec(Release)))
  {
    ReleaseDrained(s.nodes[n].slot).1
  }

  /** Some node other than `n` completed an install of this position at `m`. */
  ghost predicate OtherServedAt(s: State, n: NodeId, m: Epoch) {
    exists h | h in s.g.served :: h.opener != n && h.epoch == m
  }

  /** What a marker at `m` is meant to prove of `n`'s mount `h`: a different node served above it. */
  ghost predicate Succeeded(s: State, n: NodeId, h: Handle, m: Epoch) {
    m > h.epoch && OtherServedAt(s, n, m)
  }

  /** A served epoch is another node's exactly when it is not this node's own. */
  lemma ServedByAnotherIff(s: State, n: NodeId, m: Epoch)
    requires Inv(s) && Served(s.g, m)
    ensures OtherServedAt(s, n, m) <==> Handle(n, m) !in s.g.served
  {
    var h :| h in s.g.served && h.epoch == m;
    assert h.opener == n ==> h == Handle(n, m);
  }

  /** After every run, whatever its arms and publishes: a release of `h` on a marker at `m` has a
      successor served at `m` exactly when `m` is above `h` and was served. When the stuck-flip
      publishes were safe, that is exactly when `m` is above `h`; a gate at or above `h` is enough. */
  lemma ReleaseHasSuccessorIff(r: Run, n: NodeId)
    requires IsRun(r) && CanStep(Last(r), Step(n, Rec(Release))) && Released(Last(r), n).Some?
    ensures
      var s, h, m := Last(r), Released(Last(r), n).value, Last(r).nodes[n].rec.marker;
      && (Succeeded(s, n, h, m) <==> m > h.epoch && Served(s.g, m))
      && (s.g.marksSafe ==> (Succeeded(s, n, h, m) <==> m > h.epoch))
      && (s.g.marksSafe && s.nodes[n].rec.gate >= h.epoch ==> Succeeded(s, n, h, m))
  {
    var s, m := Last(r), Last(r).nodes[n].rec.marker;
    RunKeepsInv(r);
    assert NodeInv(s.g, n, s.nodes[n]);
    if Served(s.g, m) { ServedByAnotherIff(s, n, m); }
  }

  /** After every run the mount released is the one the drain was armed over, the marker was compared
      with the gate of that arming, and no mount is ever released twice. */
  lemma ReleaseTakesTheArmedMount(r: Run, n: NodeId)
    requires IsRun(r) && CanStep(Last(r), Step(n, Rec(Release))) && Released(Last(r), n).Some?
    ensures
      var s, h := Last(r), Released(Last(r), n).value;
      && h.opener == n && n in s.g.armed && s.g.armed[n].h == h
      && s.nodes[n].rec.gate == GateEpoch(s.g.armed[n].read)
      && h !in s.g.released && Distinct(Next(s, Step(n, Rec(Release))).g.released)
      && Next(s, Step(n, Rec(Release))).g.released == s.g.released + [h]
  {
    RunKeepsInv(r);
    RunKeepsInv(Then(r, Step(n, Rec(Release))));
  }

  /** When the marker was compared with the released mount's own open epoch. If the gate's read found a
      record, exactly when that mount was already installed at the read, and otherwise the gate is
      below it. If it fell back to the durable epoch, the gate covers every mount installed by then. If
      that read failed too, the gate is below every mount. */
  lemma GateIsOwnEpochIff(r: Run, n: NodeId)
    requires IsRun(r) && CanStep(Last(r), Step(n, Rec(Release))) && Released(Last(r), n).Some?
    ensures
      var s, h := Last(r), Released(Last(r), n).value;
      n in s.g.armed &&
      var gate, read := s.nodes[n].rec.gate, s.g.armed[n].read;
      && (read.record.Some? ==> gate <= h.epoch && (gate == h.epoch <==> h in read.served))
      && (read.record.None? && !read.failed ==>
            (h in read.served ==> gate >= h.epoch) && (gate == h.epoch <==> read.durable == h.epoch))
      && (read.record.None? && read.failed ==> gate < h.epoch)
  {
    RunKeepsInv(r);
    var s := Last(r);
    var h := Released(s, n).value;
    assert NodeInv(s.g, n, s.nodes[n]);
    assert h in s.g.served && Latest(s.g, n, h.epoch) && 1 <= h.epoch;
    var read := s.g.armed[n].read;
    assert read.record.Some? ==> Handle(n, read.record.value) in s.g.served;
  }

  // ---------------------------------------------- exactly when a drain ends too soon

  lemma ArmSets(s: State, n: NodeId, h: Handle)
    requires CanStep(s, Step(n, Rec(Arm))) && s.nodes[n].slot.mount == Some(h) && s.nodes[n].slot.st.phase == NoPhase
    ensures
      var x, t := s.nodes[n], Next(s, Step(n, Rec(Arm)));
      && t.nodes[n] == x.(slot := x.slot.(st := HandoffState(Draining, GateEpoch(x.rec.read))), rec := Idle)
      && t.g == s.g.(armed := s.g.armed[n := Arming(h, x.rec.read)], armsSafe := s.g.armsSafe && SafeArm(x))
  {
  }

  /** One drain check of a mounted draining position, nobody else moving, up to its decision. */
  lemma CheckDecides(s: State, n: NodeId)
    requires CanStep(s, Step(n, Rec(CheckPhase))) && s.nodes[n].slot.mount.Some?
    ensures
      var t := Next(s, Step(n, Rec(CheckPhase)));
      CanStep(t, Step(n, Rec(CheckOrphan))) &&
      var u := Next(t, Step(n, Rec(CheckOrphan)));
      CanStep(u, Step(n, Rec(CheckMarker(false)))) &&
      var v := Next(u, Step(n, Rec(CheckMarker(false))));
      && v.g == s.g && v.nodes[n].slot == s.nodes[n].slot
      && (v.nodes[n].rec.Proved? <==> s.g.marker.Some? && s.g.marker.value > s.nodes[n].slot.st.openEpoch)
  {
  }

  /** The state in which a drain armed and checked by `n`, with nobody else moving, decides. */
  function Decided(s: State, n: NodeId, h: Handle): (t: State)
    requires CanStep(s, Step(n, Rec(Arm))) && s.nodes[n].slot.mount == Some(h) && s.nodes[n].slot.st.phase == NoPhase
    ensures n in t.nodes && t.g.served == s.g.served && t.g.marker == s.g.marker
    ensures CanStep(t, Step(n, Rec(Release))) ==> Released(t, n) == Some(h)
    ensures CanStep(t, Step(n, Rec(Release)))
            <==> s.g.marker.Some? && s.g.marker.value > GateEpoch(s.nodes[n].rec.read)
  {
    ArmSets(s, n, h);
    var armed := Next(s, Step(n, Rec(Arm)));
    CheckDecides(armed, n);
    Next(Next(Next(armed, Step(n, Rec(CheckPhase))), Step(n, Rec(CheckOrphan))), Step(n, Rec(CheckMarker(false))))
  }

  /** After every run and whatever the marker, such a drain releases `h` on a marker that is no
      successor's exactly when the marker lies above the gate and either not above `h` or at an epoch
      nobody served. After safe publishes a safe arm leaves no such marker; after an unsafe arm `h`'s own
      marker is one. */
  lemma DrainEndsTooSoonIff(r: Run, n: NodeId, h: Handle)
    requires IsRun(r) && CanStep(Last(r), Step(n, Rec(Arm)))
    requires Last(r).nodes[n].slot.mount == Some(h) && Last(r).nodes[n].slot.st.phase == NoPhase
    ensures
      var s, gate, t := Last(r), GateEpoch(Last(r).nodes[n].rec.read), Decided(Last(r), n, h);
      var tooSoon := CanStep(t, Step(n, Rec(Release))) && !Succeeded(t, n, h, s.g.marker.value);
      && (tooSoon <==>
            && s.g.marker.Some? && gate < s.g.marker.value
            && (s.g.marker.value <= h.epoch || !Served(s.g, s.g.marker.value)))
      && (s.g.marksSafe && SafeArm(s.nodes[n]) ==> !tooSoon)
      && (!SafeArm(s.nodes[n]) && s.g.marker == Some(h.epoch) ==> tooSoon)
  {
    RunKeepsInv(r);
    var s, t := Last(r), Decided(Last(r), n, h);
    assert NodeInv(s.g, n, s.nodes[n]);
    if s.g.marker.Some? && s.g.marker.value > h.epoch {
      var m := s.g.marker.value;
      assert OtherServedAt(t, n, m) <==> OtherServedAt(s, n, m);
      if Served(s.g, m) { ServedByAnotherIff(s, n, m); }
    }
  }

  // ------------------------------------------------------------- the stuck flip's mark

  /** After every run, the epoch a stuck flip takes off the node's record was served, and it takes one
      exactly when the record is still there. */
  lemma RecordedMarkIsServed(r: Run, n: NodeId)
    requires IsRun(r) && CanStep(Last(r), Step(n, Rec(StuckRecord)))
    ensures
      var pc := Next(Last(r), Step(n, Rec(StuckRecord))).nodes[n].rec;
      && (pc.StuckRead? <==> Last(r).nodes[n].slot.open.Some?)
      && (pc.StuckRead? ==> Served(Last(r).g, pc.e))
  {
    RunKeepsInv(r);
    var x := Last(r).nodes[n];
    if x.slot.open.Some? { assert Handle(n, x.slot.open.value) in Last(r).g.served; }
  }

  /** `n` resolves the epoch its stuck flip publishes, nobody else moving and no read failing. */
  function Resolving(r: Run, n: NodeId, recorded: bool): Run {
    var once := Then(r, Step(n, Rec(StuckRecord)));
    if recorded then once else Then(Then(once, Step(n, Rec(StuckRecord))), Step(n, Rec(StuckDurable(false))))
  }

  lemma ResolvesTo(r: Run, n: NodeId)
    requires IsRun(r) && n in Last(r).nodes && Last(r).nodes[n].rec == StuckDropped
    ensures
      var s := Last(r);
      var t := Resolving(r, n, s.nodes[n].slot.open.Some?);
      && IsRun(t) && Last(t).g.served == s.g.served && Last(t).nodes[n].rec
           == StuckRead(if s.nodes[n].slot.open.Some? then s.nodes[n].slot.open.value else s.g.durable)
  {
    var x, once := Last(r).nodes[n], Then(r, Step(n, Rec(StuckRecord)));
    if x.slot.open.None? {
      var twice := Then(once, Step(n, Rec(StuckRecord)));
      assert IsRun(once) && Last(once).nodes[n] == x.(rec := StuckUnrecorded) && Last(once).g == Last(r).g;
      assert IsRun(twice) && Last(twice).nodes[n] == x.(rec := StuckFallback) && Last(twice).g == Last(r).g;
    }
  }

  /** The run in which another node claims and opens just before `n`'s stuck flip resolves its epoch. */
  ghost function Overtaken(r: Run, n: NodeId, other: NodeId): Run
    requires IsRun(r) && n in Last(r).nodes
  {
    var raced := Then(Then(r, Step(other, Acq(Start))), Step(other, Acq(Open)));
    Resolving(raced, n, Last(r).nodes[n].slot.open.Some?)
  }

  /** That guard is exact under interference. From every state any run reaches in which `n` is about to
      resolve the epoch to publish and another node is idle and open, that node can open first; and then
      what `n` publishes was served exactly when `n` still had its record. */
  lemma OvertakenMarkIsServedIff(r: Run, n: NodeId, other: NodeId)
    requires IsRun(r) && n in Last(r).nodes && Last(r).nodes[n].rec == StuckDropped
    requires other != n && CanStep(Last(r), Step(other, Acq(Start)))
    ensures IsRun(Overtaken(r, n, other)) && Last(Overtaken(r, n, other)).nodes[n].rec.StuckRead?
    ensures var t := Last(Overtaken(r, n, other));
            Served(t.g, t.nodes[n].rec.e) <==> Last(r).nodes[n].slot.open.Some?
  {
    var r1 := Then(r, Step(other, Acq(Start)));
    var r2 := Then(r1, Step(other, Acq(Open)));
    assert Last(r1).nodes[n] == Last(r).nodes[n] && Last(r1).nodes[other].acq == Opening;
    assert Last(r2).nodes[n] == Last(r).nodes[n] && Last(r2).g.durable == FenceEpoch(Last(r).g.durable, BASE_EPOCH);
    RunKeepsInv(r);
    assert Last(r2).g.served == Last(r).g.served;
    ResolvesTo(r2, n);
    var x := Last(r).nodes[n];
    if x.slot.open.Some? { assert Handle(n, x.slot.open.value) in Last(r).g.served; }
  }

  // ------------------------------------------------------------------ the marker itself

  /** The epoch a step puts into the marker, if it puts any. */
  function Puts(s: State, step: Step): Option<Epoch>
    requires CanStep(s, step)
  {
    match step.a
    case Acq(PutMark) => Some(s.nodes[step.n].acq.e)
    case Rec(StuckPutMark) => Some(s.nodes[step.n].rec.e)
    case Env(LatePut(e)) => Some(e)
    case _ => None
  }

  /** The last put of `r` since its initial part `p`. */
  ghost function LastPut(r: Run, p: Run): Option<Epoch>
    requires IsRun(r) && Extends(r, p)
  {
    if r == p then None
    else match Puts(Last(r.before), r.step) case Some(e) => Some(e) case None => LastPut(r.before, p)
  }

  lemma StepPuts(s: State, step: Step)
    requires CanStep(s, step)
    ensures Next(s, step).g.marker == if Puts(s, step).Some? then Puts(s, step) else s.g.marker
  {
    match step.a
    case Acq(_) =>
    case Rec(_) =>
    case Env(_) =>
  }

  lemma {:induction false} MarkerIsLastPut(r: Run, p: Run)
    requires IsRun(r) && IsRun(p) && Extends(r, p)
    ensures Last(r).g.marker == if LastPut(r, p).Some? then LastPut(r, p) else Last(p).g.marker
  {
    if r != p {
      MarkerIsLastPut(r.before, p);
      StepPuts(Last(r.before), r.step);
    }
  }

  /** `p` ends with a node's read that found the marker below the epoch `e` it goes on to put. */
  ghost predicate FoundBelow(p: Run, e: Epoch)
    requires IsRun(p)
  {
    p.Then? &&
    var y := Last(p).nodes[p.step.n];
    || (p.step.a == Acq(ReadForMark) && y.acq == MarkPut(e))
    || (p.step.a == Rec(StuckReadForMark) && y.rec == StuckPut(e))
  }

  lemma ReadFoundBelow(p: Run, e: Epoch)
    requires IsRun(p) && FoundBelow(p, e)
    ensures Below(Last(p).g.marker, e)
  {
  }

  /** `e` is a put that some node has under way, or that may still land. */
  ghost predicate Outstanding(s: State, e: Epoch) {
    e in s.g.late || exists n | n in s.nodes :: e in Pending(s.nodes[n])
  }

  lemma PendingStep(g: Global, n: NodeId, x: Node, a: Action, e: Epoch)
    requires Enabled(g, x, a)
    ensures
      var y := NodeNext(g, n, x, a);
      e in Pending(y) ==>
        || e in Pending(x)
        || (a == Acq(ReadForMark) && y.acq == MarkPut(e))
        || (a == Rec(StuckReadForMark) && y.rec == StuckPut(e))
  {
    match a
    case Acq(_) =>
    case Rec(_) =>
    case Env(_) =>
  }

  lemma LateStep(g: Global, n: NodeId, x: Node, a: Action, e: Epoch)
    requires Enabled(g, x, a)
    ensures e in GlobalNext(g, n, x, a).late ==> e in g.late || e in Pending(x)
  {
    match a
    case Acq(_) =>
    case Rec(_) =>
    case Env(_) =>
  }

  /** Every put goes back to such a read. */
  lemma OutstandingStep(s: State, step: Step, e: Epoch)
    requires CanStep(s, step) && Outstanding(Next(s, step), e)
    ensures
      var y := Next(s, step).nodes[step.n];
      || Outstanding(s, e)
      || (step.a == Acq(ReadForMark) && y.acq == MarkPut(e))
      || (step.a == Rec(StuckReadForMark) && y.rec == StuckPut(e))
  {
    var t, x := Next(s, step), s.nodes[step.n];
    PendingStep(s.g, step.n, x, step.a, e);
    LateStep(s.g, step.n, x, step.a, e);
    if e !in t.g.late {
      var n :| n in t.nodes && e in Pending(t.nodes[n]);
      assert n != step.n ==> e in Pending(s.nodes[n]);
    }
  }

  lemma {:induction false} OutstandingWasRead(r: Run, e: Epoch) returns (p: Run)
    requires IsRun(r) && Outstanding(Last(r), e)
    ensures IsRun(p) && Extends(r, p) && FoundBelow(p, e)
  {
    OutstandingStep(Last(r.before), r.step, e);
    if Outstanding(Last(r.before), e) { p := OutstandingWasRead(r.before, e); } else { p := r; }
  }

  ghost predicate Lowers(s: State, step: Step)
    requires CanStep(s, step)
  {
    s.g.marker.Some? && (Next(s, step).g.marker.None? || Next(s, step).g.marker.value < s.g.marker.value)
  }

  /** After every run: only a put can lower the marker, every put goes back to a read that found the
      marker below it, and it lowers the marker exactly when the last put to land since that read is a
      higher one. */
  lemma MarkerFallsIff(r: Run, step: Step)
    requires IsRun(r) && CanStep(Last(r), step)
    ensures Puts(Last(r), step).None? ==> Next(Last(r), step).g.marker == Last(r).g.marker
    ensures Puts(Last(r), step).Some? ==>
      var e := Puts(Last(r), step).value;
      exists p: Run ::
        && IsRun(p) && Extends(r, p) && FoundBelow(p, e)
        && (Lowers(Last(r), step) <==> LastPut(r, p).Some? && LastPut(r, p).value > e)
  {
    match Puts(Last(r), step)
    case None => StepPuts(Last(r), step);
    case Some(e) =>
      assert Outstanding(Last(r), e) by { assert e in Last(r).g.late || e in Pending(Last(r).nodes[step.n]); }
      var p := OutstandingWasRead(r, e);
      MarkerIsLastPut(r, p);
      StepPuts(Last(r), step);
      ReadFoundBelow(p, e);
  }

  // ----------------------------------------------------- acquires over live mounts

  /** An open that has not been installed has no mount under it. */
  predicate OpenUnmounted(x: Node) {
    x.acq == Opening || x.acq.HasOpened? ==> x.slot.mount.None?
  }

  ghost predicate OpensUnmounted(s: State) {
    forall n | n in s.nodes :: OpenUnmounted(s.nodes[n])
  }

  lemma OpenUnmountedStep(g: Global, n: NodeId, x: Node, a: Action)
    requires Enabled(g, x, a)
    ensures OpenUnmounted(x) && (a == Acq(Start) ==> x.slot.mount.None?) ==> OpenUnmounted(NodeNext(g, n, x, a))
    ensures a == Acq(Start) && x.slot.mount.Some? ==> !OpenUnmounted(NodeNext(g, n, x, a))
  {
  }

  ghost predicate AlwaysOpensUnmounted(r: Run)
    requires IsRun(r)
  {
    OpensUnmounted(Last(r)) && (r.Then? ==> AlwaysOpensUnmounted(r.before))
  }

  /** Every claim of the position found it unmounted, which the unlocked check before it cannot
      promise. */
  ghost predicate StartsUnmounted(r: Run)
    requires IsRun(r)
  {
    r.Then? ==>
      StartsUnmounted(r.before)
      && (r.step.a == Acq(Start) ==> Last(r.before).nodes[r.step.n].slot.mount.None?)
  }

  /** "In flight and not installed means not mounted" holds throughout a run exactly when every claim
      in it was made on an unmounted position. */
  lemma {:induction false} OpensUnmountedIff(r: Run)
    requires IsRun(r)
    ensures AlwaysOpensUnmounted(r) <==> StartsUnmounted(r)
  {
    match r
    case Begin(_) =>
    case Then(before, step) =>
      OpensUnmountedIff(before);
      var s, x := Last(before), Last(before).nodes[step.n];
      OpenUnmountedStep(s.g, step.n, x, step.a);
      assert Last(r).nodes[step.n] == NodeNext(s.g, step.n, x, step.a);
  }

  // -------------------------------------------------- what undisturbed moves amount to

  /** An abandoned release takes the mount and its record out and nothing else. */
  lemma AbandonTakesOut(s: State, n: NodeId)
    requires CanStep(s, Step(n, Rec(Abandon)))
    ensures
      var t := Next(s, Step(n, Rec(Abandon)));
      CanStep(t, Step(n, Rec(Forget))) &&
      var u, x := Next(t, Step(n, Rec(Forget))), s.nodes[n];
      u.nodes[n] == x.(slot := x.slot.(mount := None, open := None)) && u.g == s.g
  {
  }

  /** Reclaiming a position undoes its arming. */
  lemma ReclaimUndoesArm(s: State, n: NodeId)
    requires CanStep(s, Step(n, Rec(Arm))) && s.nodes[n].slot.mount.Some? && s.nodes[n].slot.st == STEADY
    ensures
      var t := Next(s, Step(n, Rec(Arm)));
      t.nodes[n].slot.st.phase == Draining && CanStep(t, Step(n, Rec(Reclaim))) &&
      Next(t, Step(n, Rec(Reclaim))).nodes[n] == s.nodes[n].(rec := Idle)
  {
  }

  /** A put whose write failed, or whose node died, can still land, whoever else has moved on. */
  lemma LostPutMayLand(s: State, n: NodeId, e: Epoch, a: Action, any: NodeId)
    requires n in s.nodes && any in s.nodes && e in Pending(s.nodes[n])
    requires a == Env(Crash) || (a == Acq(MarkFails) && s.nodes[n].acq == MarkPut(e))
             || (a == Rec(StuckMarkFails) && s.nodes[n].rec == StuckPut(e))
    ensures
      CanStep(s, Step(n, a)) &&
      var t := Next(s, Step(n, a));
      && CanStep(t, Step(any, Env(LatePut(e)))) && Next(t, Step(any, Env(LatePut(e)))).g.marker == Some(e)
  {
  }

  // ---------------------------------------------------------------- a closed node

  /** What a node is once Close has set its flag, as far as taking up the position goes: it installs
      nothing, claims nothing, and its mount can only go. */
  lemma ClosedNodeStep(g: Global, n: NodeId, x: Node, a: Action)
    requires Enabled(g, x, a) && x.closed && a != Env(Crash)
    ensures
      var y := NodeNext(g, n, x, a);
      && y.closed && (y.slot.mount == x.slot.mount || y.slot.mount.None?)
      && (x.acq == NotAcquiring ==> y.acq == NotAcquiring)
    ensures GlobalNext(g, n, x, a).served == g.served
  {
    match a
    case Acq(_) =>
    case Rec(_) =>
    case Env(_) =>
  }

  /** `n` has not crashed since `p`. */
  ghost predicate Survived(r: Run, p: Run, n: NodeId)
    requires Extends(r, p)
  {
    r == p || (r.step != Step(n, Env(Crash)) && Survived(r.before, p, n))
  }

  /** In every continuation up to its crash, whatever the others do, a closed node never serves again:
      it stays closed, its mount stays or goes, nothing of its own is installed, and once it is not
      acquiring it never is. */
  lemma {:induction false} ClosedNeverServesAgain(r: Run, p: Run, n: NodeId)
    requires IsRun(r) && IsRun(p) && Extends(r, p) && Survived(r, p, n)
    requires n in Last(p).nodes && Last(p).nodes[n].closed
    ensures n in Last(r).nodes
    ensures
      var x, y := Last(p).nodes[n], Last(r).nodes[n];
      && y.closed && (y.slot.mount == x.slot.mount || y.slot.mount.None?)
      && (x.acq == NotAcquiring ==> y.acq == NotAcquiring)
    ensures forall h | h in Last(r).g.served && h.opener == n :: h in Last(p).g.served
  {
    if r != p {
      ClosedNeverServesAgain(r.before, p, n);
      RunKeepsInv(r.before);
      StepKeepsInv(Last(r.before), r.step);
      var s := Last(r.before);
      if r.step.n == n { ClosedNodeStep(s.g, n, s.nodes[n], r.step.a); }
    }
  }

  /** Hence after Close has taken the mounts the position is unmounted here for good. */
  lemma TakenStaysUnmounted(r: Run, p: Run, n: NodeId)
    requires IsRun(r) && IsRun(p) && Extends(r, p) && Survived(r, p, n)
    requires p.Then? && p.step == Step(n, Env(TakeMounts))
    ensures n in Last(r).nodes && Last(r).nodes[n].slot.mount.None?
  {
    ClosedNeverServesAgain(r, p, n);
  }

  // ------------------------------------------------------------------ the leave gate

  /** Along a run the installs and the durable epoch only grow, and the nodes stay the same. */
  lemma {:induction false} RunGrows(r: Run, p: Run)
    requires IsRun(r) && IsRun(p) && Extends(r, p)
    ensures Last(p).g.served <= Last(r).g.served && Last(p).g.durable <= Last(r).g.durable
    ensures Last(r).nodes.Keys == Last(p).nodes.Keys
  {
    if r != p {
      RunGrows(r.before, p);
      RunKeepsInv(r.before);
      StepKeepsInv(Last(r.before), r.step);
    }
  }

  /** One look of the leave gate at a position, as the moments of a run in which the mounts were listed,
      the own epoch's record was read, its durable fallback was read (or failed), and the marker was
      read. Anything may happen in between: release, reclaim, eviction, remount, shutdown, crash. */
  datatype Look = Look(atList: Run, atRecord: Run, atDurable: Run, atMarker: Run, failed: bool)

  ghost predicate IsLook(k: Look, n: NodeId, h: Handle) {
    && IsRun(k.atList) && IsRun(k.atRecord) && IsRun(k.atDurable) && IsRun(k.atMarker)
    && Extends(k.atRecord, k.atList) && Extends(k.atDurable, k.atRecord) && Extends(k.atMarker, k.atDurable)
    && n in Last(k.atList).nodes && Last(k.atList).nodes[n].slot.mount == Some(h)
    && n in Last(k.atRecord).nodes
  }

  /** The epoch the gate compares the marker with. */
  ghost function EpochSeen(k: Look, n: NodeId, h: Handle): Epoch
    requires IsLook(k, n, h)
  {
    var x := Last(k.atRecord).nodes[n];
    if x.slot.open.Some? then x.slot.open.value else if k.failed then 0 else Last(k.atDurable).g.durable
  }

  /** The leaver itself installed at `m` after its mounts were listed. */
  ghost predicate Remounted(k: Look, n: NodeId, h: Handle, m: Epoch)
    requires IsLook(k, n, h)
  {
    Handle(n, m) in Last(k.atMarker).g.served - Last(k.atList).g.served
  }

  lemma LookGrows(k: Look, n: NodeId, h: Handle)
    requires IsLook(k, n, h)
    ensures Last(k.atList).g.served <= Last(k.atRecord).g.served <= Last(k.atMarker).g.served
    ensures Last(k.atRecord).g.durable <= Last(k.atDurable).g.durable
  {
    RunGrows(k.atRecord, k.atList);
    RunGrows(k.atDurable, k.atRecord);
    RunGrows(k.atMarker, k.atDurable);
  }

  /** What the epoch read says of the listed mount: it is not below it unless there was no record and
      the fallback failed. */
  lemma EpochSeenCovers(k: Look, n: NodeId, h: Handle)
    requires IsLook(k, n, h)
    ensures Last(k.atRecord).nodes[n].slot.open.Some? || !k.failed ==> EpochSeen(k, n, h) >= h.epoch
  {
    LookGrows(k, n, h);
    RunKeepsInv(k.atList);
    RunKeepsInv(k.atRecord);
    assert NodeInv(Last(k.atList).g, n, Last(k.atList).nodes[n]);
    assert NodeInv(Last(k.atRecord).g, n, Last(k.atRecord).nodes[n]);
    assert h in Last(k.atRecord).g.served && h.opener == n;
  }

  /** A marker the leave gate finds above the epoch it read proves that a different node served above
      the mount it listed exactly when the marker is above that mount, was served, and is not one this
      node installed itself after listing. It is above the mount unless the epoch read found no record
      and failed, and it was served if the stuck-flip publishes were safe. */
  lemma LeaveGateProvesSuccessorIff(k: Look, n: NodeId, h: Handle)
    requires IsLook(k, n, h) && Last(k.atMarker).g.marker.Some?
    requires Last(k.atMarker).g.marker.value > EpochSeen(k, n, h)
    ensures
      var s, m := Last(k.atMarker), Last(k.atMarker).g.marker.value;
      && (Succeeded(s, n, h, m) <==> m > h.epoch && Served(s.g, m) && !Remounted(k, n, h, m))
      && (Last(k.atRecord).nodes[n].slot.open.Some? || !k.failed ==> m > h.epoch)
      && (s.g.marksSafe ==> Served(s.g, m))
  {
    LookGrows(k, n, h);
    EpochSeenCovers(k, n, h);
    RunKeepsInv(k.atList);
    RunKeepsInv(k.atMarker);
    var s, m := Last(k.atMarker), Last(k.atMarker).g.marker.value;
    assert NodeInv(Last(k.atList).g, n, Last(k.atList).nodes[n]);
    assert Handle(n, m) in Last(k.atList).g.served ==> m <= h.epoch;
    if Served(s.g, m) { ServedByAnotherIff(s, n, m); }
  }
}
