/** States that runs from the empty cluster reach: releases with no successor, a leave gate that passes
    on the leaver's own marker, an acquire over a live mount, a marker that falls. Each state says in
    `armsSafe` and `marksSafe` which of the two guards every step of its run kept. */
module OverlapWitness {
  import opened Basics
  import opened MountTable
  import opened SharedBacking
  import opened OverlapProtocol

  /** Some run continues `p` and ends in `s`. */
  ghost predicate Reaches(p: Run, s: State) {
    exists r: Run :: IsRun(r) && Extends(r, p) && Last(r) == s
  }

  const NOTHING := Global(0, None, {}, map[], {}, map[], [], true, true)

  /** A node with no reconcile step under way and nothing in its phase map. */
  function At(mount: Option<Handle>, acq: AcquirePc): Node {
    Node(Slot(mount, STEADY, acq != NotAcquiring, if mount.Some? then Some(mount.value.epoch) else None),
         false, acq, Idle)
  }

  /** Three nodes. */
  function Trio(a: Node, b: Node, c: Node, g: Global): State {
    State(map[0 := a, 1 := b, 2 := c], g)
  }

  const CLEAN := Trio(FRESH, FRESH, FRESH, NOTHING)

  // ------------------------------------------------------------- stretches of a run

  const CLEAN_RUN := Begin(CLEAN)

  lemma StartClean()
    ensures Reaches(CLEAN_RUN, CLEAN)
  {
    assert IsRun(CLEAN_RUN) && Extends(CLEAN_RUN, CLEAN_RUN) && Last(CLEAN_RUN) == CLEAN;
  }

  lemma Extend(f: Run, s: State, n: NodeId, a: Action)
    requires Reaches(f, s) && CanStep(s, Step(n, a))
    ensures Reaches(f, Next(s, Step(n, a)))
  {
    var r :| IsRun(r) && Extends(r, f) && Last(r) == s;
    var u := Then(r, Step(n, a));
    assert IsRun(u) && Extends(u, f) && Last(u) == Next(s, Step(n, a));
  }

  /** Two steps of one node, and where they lead, with nothing said of how the start was reached. */
  ghost predicate Leads(s: State, n: NodeId, a: Action, b: Action, t: State) {
    && CanStep(s, Step(n, a))
    && var u := Next(s, Step(n, a));
    CanStep(u, Step(n, b)) && Next(u, Step(n, b)) == t
  }

  /** A step of one node on its own view, to a given node and backing. */
  predicate Does(g: Global, n: NodeId, x: Node, a: Action, x': Node, g': Global) {
    Enabled(g, x, a) && NodeNext(g, n, x, a) == x' && GlobalNext(g, n, x, a) == g'
  }

  lemma StepBy(s: State, n: NodeId, a: Action, x: Node, g: Global)
    requires n in s.nodes && Does(s.g, n, s.nodes[n], a, x, g)
    ensures CanStep(s, Step(n, a)) && Next(s, Step(n, a)) == Set(s, n, x, g)
  {
  }

  lemma LeadsBy(s: State, n: NodeId, a: Action, b: Action, x1: Node, g1: Global, x2: Node, g2: Global)
    requires n in s.nodes && Does(s.g, n, s.nodes[n], a, x1, g1) && Does(g1, n, x1, b, x2, g2)
    ensures Leads(s, n, a, b, Set(s, n, x2, g2))
  {
    StepBy(s, n, a, x1, g1);
    StepBy(Set(s, n, x1, g1), n, b, x2, g2);
    assert s.nodes[n := x1][n := x2] == s.nodes[n := x2];
  }

  lemma Walk(f: Run, s: State, n: NodeId, a: Action, b: Action, t: State)
    requires Reaches(f, s) && Leads(s, n, a, b, t)
    ensures Reaches(f, t)
  {
    Extend(f, s, n, a);
    Extend(f, Next(s, Step(n, a)), n, b);
  }

  function Set(s: State, n: NodeId, x: Node, g: Global): State {
    State(s.nodes[n := x], g)
  }

  /** An idle node that has claimed and opened. */
  function Racing(s: State, n: NodeId): State
    requires n in s.nodes
  {
    var x, e := s.nodes[n], FenceEpoch(s.g.durable, BASE_EPOCH);
    Set(s, n, x.(slot := x.slot.(inFlight := true), acq := HasOpened(Handle(n, e))),
        s.g.(durable := e, openers := s.g.openers[e := n]))
  }

  lemma Race(f: Run, s: State, n: NodeId)
    requires Reaches(f, s) && CanStep(s, Step(n, Acq(Start)))
    ensures Reaches(f, Racing(s, n))
  {
    assert Leads(s, n, Acq(Start), Acq(Open), Racing(s, n));
    Walk(f, s, n, Acq(Start), Acq(Open), Racing(s, n));
  }

  /** An idle node that has claimed, opened and installed. */
  function Serving(s: State, n: NodeId): State
    requires n in s.nodes
  {
    var x, e := s.nodes[n], FenceEpoch(s.g.durable, BASE_EPOCH);
    Set(s, n, x.(slot := Slot(Some(Handle(n, e)), STEADY, true, Some(e)), acq := MarkRead(e)),
        s.g.(durable := e, openers := s.g.openers[e := n], served := s.g.served + {Handle(n, e)}))
  }

  lemma Serve(f: Run, s: State, n: NodeId)
    requires Reaches(f, s) && CanStep(s, Step(n, Acq(Start))) && !IsLoser(s.nodes[n].slot.st.phase)
    ensures Reaches(f, Serving(s, n))
  {
    Race(f, s, n);
    Extend(f, Racing(s, n), n, Acq(Install));
    assert Next(Racing(s, n), Step(n, Acq(Install))) == Serving(s, n);
  }

  /** An installed node whose marker has landed, or has been lost. */
  function Marking(s: State, n: NodeId, lands: bool): State
    requires n in s.nodes && s.nodes[n].acq.MarkRead?
  {
    Set(s, n, s.nodes[n].(acq := Finishing), if lands then s.g.(marker := Some(s.nodes[n].acq.e)) else s.g)
  }

  lemma LandMark(f: Run, s: State, n: NodeId)
    requires Reaches(f, s) && n in s.nodes && s.nodes[n].acq.MarkRead? && Below(s.g.marker, s.nodes[n].acq.e)
    ensures Reaches(f, Marking(s, n, true))
  {
    assert Leads(s, n, Acq(ReadForMark), Acq(PutMark), Marking(s, n, true));
    Walk(f, s, n, Acq(ReadForMark), Acq(PutMark), Marking(s, n, true));
  }

  lemma LoseMark(f: Run, s: State, n: NodeId)
    requires Reaches(f, s) && n in s.nodes && s.nodes[n].acq.MarkRead?
    ensures Reaches(f, Marking(s, n, false))
  {
    Extend(f, s, n, Acq(MarkFails));
  }

  /** A node that has armed over its mount and read the phase back. */
  function Polled(s: State, n: NodeId, h: Handle): State
    requires n in s.nodes && s.nodes[n].rec.ArmAt?
  {
    var x, gate := s.nodes[n], GateEpoch(s.nodes[n].rec.read);
    Set(s, n, x.(slot := x.slot.(st := HandoffState(Draining, gate)), rec := Polling(gate)),
        s.g.(armed := s.g.armed[n := Arming(h, x.rec.read)], armsSafe := s.g.armsSafe && SafeArm(x)))
  }

  /** A node that has found the marker above its gate. */
  function Ready(s: State, n: NodeId): State
    requires n in s.nodes && s.nodes[n].rec.Polling? && s.g.marker.Some?
  {
    Set(s, n, s.nodes[n].(rec := Proved(s.nodes[n].rec.gate, s.g.marker.value)), s.g)
  }

  /** A node that has armed on its gate's read, checked, and released its mount. */
  function Drained(s: State, n: NodeId, h: Handle): State
    requires n in s.nodes && s.nodes[n].rec.ArmAt?
  {
    var x := s.nodes[n];
    Set(s, n, x.(slot := Slot(None, STEADY, x.slot.inFlight, None), rec := Idle),
        s.g.(armed := s.g.armed[n := Arming(h, x.rec.read)], released := s.g.released + [h],
             armsSafe := s.g.armsSafe && SafeArm(x)))
  }

  lemma ArmPollLeads(s: State, n: NodeId, h: Handle)
    requires CanStep(s, Step(n, Rec(Arm)))
    requires s.nodes[n].slot.mount == Some(h) && s.nodes[n].slot.st.phase == NoPhase
    ensures Leads(s, n, Rec(Arm), Rec(CheckPhase), Polled(s, n, h))
  {
    var x, gate := s.nodes[n], GateEpoch(s.nodes[n].rec.read);
    var y, g := x.(slot := x.slot.(st := HandoffState(Draining, gate)), rec := Idle), Polled(s, n, h).g;
    LeadsBy(s, n, Rec(Arm), Rec(CheckPhase), y, g, y.(rec := Polling(gate)), g);
  }

  lemma FindMarkerLeads(s: State, n: NodeId)
    requires n in s.nodes && s.nodes[n].rec.Polling? && s.nodes[n].slot.mount.Some?
    requires s.g.marker.Some? && s.g.marker.value > s.nodes[n].rec.gate
    ensures Leads(s, n, Rec(CheckOrphan), Rec(CheckMarker(false)), Ready(s, n))
  {
    var x := s.nodes[n];
    LeadsBy(s, n, Rec(CheckOrphan), Rec(CheckMarker(false)), x.(rec := Checking(x.rec.gate)), s.g,
            x.(rec := Proved(x.rec.gate, s.g.marker.value)), s.g);
  }

  lemma ReleaseDoes(s: State, n: NodeId, h: Handle)
    requires CanStep(s, Step(n, Rec(Arm))) && s.nodes[n].slot.mount == Some(h) && s.g.marker.Some?
    ensures var t := Ready(Polled(s, n, h), n);
            && CanStep(t, Step(n, Rec(Release)))
            && Next(t, Step(n, Rec(Release))) == Drained(s, n, h)
  {
    var t, d := Ready(Polled(s, n, h), n), Drained(s, n, h);
    assert Does(t.g, n, t.nodes[n], Rec(Release), d.nodes[n], d.g);
    assert t.nodes[n := d.nodes[n]] == d.nodes;
  }

  lemma ArmAndPoll(f: Run, s: State, n: NodeId, h: Handle)
    requires Reaches(f, s) && CanStep(s, Step(n, Rec(Arm)))
    requires s.nodes[n].slot.mount == Some(h) && s.nodes[n].slot.st.phase == NoPhase
    ensures Reaches(f, Polled(s, n, h))
  {
    ArmPollLeads(s, n, h);
    Walk(f, s, n, Rec(Arm), Rec(CheckPhase), Polled(s, n, h));
  }

  lemma FindMarker(f: Run, s: State, n: NodeId)
    requires Reaches(f, s) && n in s.nodes && s.nodes[n].rec.Polling? && s.nodes[n].slot.mount.Some?
    requires s.g.marker.Some? && s.g.marker.value > s.nodes[n].rec.gate
    ensures Reaches(f, Ready(s, n))
  {
    FindMarkerLeads(s, n);
    Walk(f, s, n, Rec(CheckOrphan), Rec(CheckMarker(false)), Ready(s, n));
  }

  lemma DrainAway(f: Run, s: State, n: NodeId, h: Handle)
    requires Reaches(f, s) && CanStep(s, Step(n, Rec(Arm)))
    requires s.nodes[n].slot.mount == Some(h) && s.nodes[n].slot.st.phase == NoPhase
    requires s.g.marker.Some? && s.g.marker.value > GateEpoch(s.nodes[n].rec.read)
    ensures Reaches(f, Drained(s, n, h))
  {
    var p := Polled(s, n, h);
    ArmAndPoll(f, s, n, h);
    FindMarker(f, p, n);
    ReleaseDoes(s, n, h);
    Extend(f, Ready(p, n), n, Rec(Release));
  }

  lemma SetTrio(a: Node, b: Node, c: Node, g: Global, x: Node, g': Global)
    ensures Set(Trio(a, b, c, g), 0, x, g') == Trio(x, b, c, g')
    ensures Set(Trio(a, b, c, g), 1, x, g') == Trio(a, x, c, g')
    ensures Set(Trio(a, b, c, g), 2, x, g') == Trio(a, b, x, g')
  {
    assert map[0 := a, 1 := b, 2 := c][0 := x] == map[0 := x, 1 := b, 2 := c];
    assert map[0 := a, 1 := b, 2 := c][1 := x] == map[0 := a, 1 := x, 2 := c];
    assert map[0 := a, 1 := b, 2 := c][2 := x] == map[0 := a, 1 := b, 2 := x];
  }

  /** Node 0 takes one step to a given node and backing. */
  lemma Go0(f: Run, a: Node, b: Node, c: Node, g: Global, act: Action, a': Node, g': Global)
    requires Reaches(f, Trio(a, b, c, g)) && Does(g, 0, a, act, a', g')
    ensures Reaches(f, Trio(a', b, c, g'))
  {
    SetTrio(a, b, c, g, a', g');
    Extend(f, Trio(a, b, c, g), 0, act);
  }

  // ------------------------------------------------- an acquire over a live mount

  const H1 := Handle(0, 1)
  const SERVED1 := NOTHING.(durable := 1, openers := map[1 := 0], served := {H1})
  const FIRST := Trio(At(Some(H1), MarkRead(1)), FRESH, FRESH, SERVED1)
  const QUIET := Trio(At(Some(H1), NotAcquiring), FRESH, FRESH, SERVED1)

  /** Node 0 opens at epoch 1 and installs. */
  lemma FirstMount()
    ensures Reaches(CLEAN_RUN, FIRST)
  {
    StartClean();
    Serve(CLEAN_RUN, CLEAN, 0);
    SetTrio(FRESH, FRESH, FRESH, NOTHING, At(Some(H1), MarkRead(1)), SERVED1);
    assert Serving(CLEAN, 0) == FIRST;
  }

  /** Its marker write is lost. */
  lemma FirstMarkLost(f: Run)
    requires Reaches(f, FIRST)
    ensures Reaches(f, QUIET)
  {
    LoseMark(f, FIRST, 0);
    SetTrio(At(Some(H1), MarkRead(1)), FRESH, FRESH, SERVED1, At(Some(H1), Finishing), SERVED1);
    Go0(f, At(Some(H1), Finishing), FRESH, FRESH, SERVED1, Acq(Finish), At(Some(H1), NotAcquiring), SERVED1);
  }

  /** A claim made after the install: an open is in flight over a mount, in a run whose arms and
      publishes are all safe. */
  lemma ClaimOverMount()
    ensures Reaches(CLEAN_RUN, Trio(At(Some(H1), Opening), FRESH, FRESH, SERVED1))
    ensures !OpenUnmounted(At(Some(H1), Opening))
  {
    FirstMount();
    FirstMarkLost(CLEAN_RUN);
    Go0(CLEAN_RUN, At(Some(H1), NotAcquiring), FRESH, FRESH, SERVED1, Acq(Start), At(Some(H1), Opening), SERVED1);
  }

  // --------------------------------------------- a node that releases to itself

  const H2 := Handle(0, 2)
  const SERVED2 := Global(2, None, {}, map[1 := 0, 2 := 0], {H1, H2}, map[], [], true, true)

  /** The read of a gate at 1, off the record of the mount at 1. */
  const READ1 := Gate(Some(1), false, 1, {H1})

  function Gated(mount: Option<Handle>, acq: AcquirePc): Node {
    At(mount, acq).(rec := ArmAt(READ1))
  }

  /** Node 0's gate is read at 1, and then the mount is evicted. */
  lemma EvictUnderTheGate(f: Run)
    requires Reaches(f, QUIET)
    ensures Reaches(f, Trio(Gated(None, NotAcquiring), FRESH, FRESH, SERVED1))
  {
    var x, y := At(Some(H1), NotAcquiring), Gated(Some(H1), NotAcquiring);
    Go0(f, x, FRESH, FRESH, SERVED1, Rec(ListMounted), x.(rec := Listed), SERVED1);
    Go0(f, x.(rec := Listed), FRESH, FRESH, SERVED1, Rec(ReadRecord), y, SERVED1);
    Go0(f, y, FRESH, FRESH, SERVED1, Env(Evict(H1)), Gated(None, NotAcquiring), SERVED1);
  }

  const REMOUNTED := Trio(Gated(Some(H2), Finishing), FRESH, FRESH, SERVED2.(marker := Some(2)))

  /** It is reopened at 2 and installed, and its marker lands, before the arm. */
  lemma RemountUnderTheGate(f: Run)
    requires Reaches(f, FIRST)
    ensures Reaches(f, REMOUNTED)
  {
    FirstMarkLost(f);
    EvictUnderTheGate(f);
    var x, y := Gated(None, NotAcquiring), Gated(Some(H2), MarkRead(2));
    Serve(f, Trio(x, FRESH, FRESH, SERVED1), 0);
    SetTrio(x, FRESH, FRESH, SERVED1, y, SERVED2);
    assert Serving(Trio(x, FRESH, FRESH, SERVED1), 0) == Trio(y, FRESH, FRESH, SERVED2);
    LandMark(f, Trio(y, FRESH, FRESH, SERVED2), 0);
    SetTrio(y, FRESH, FRESH, SERVED2, Gated(Some(H2), Finishing), SERVED2.(marker := Some(2)));
  }

  const SELF := SERVED2.(marker := Some(2), armed := map[0 := Arming(H2, READ1)], released := [H2], armsSafe := false)

  /** A run with every publish safe that only node 0 takes part in: a mount is released to its own
      marker, and the position is left with nobody serving it. */
  lemma SelfRelease()
    ensures Reaches(CLEAN_RUN, Trio(At(None, Finishing), FRESH, FRESH, SELF))
  {
    FirstMount();
    RemountUnderTheGate(CLEAN_RUN);
    DrainAway(CLEAN_RUN, REMOUNTED, 0, H2);
    SetTrio(Gated(Some(H2), Finishing), FRESH, FRESH, REMOUNTED.g, At(None, Finishing), SELF);
    assert Drained(REMOUNTED, 0, H2) == Trio(At(None, Finishing), FRESH, FRESH, SELF);
  }

  /** A look whose first three moments are one, at a recorded mount. */
  lemma SteadyLook(r: Run, q: Run, n: NodeId, h: Handle)
    requires IsRun(r) && IsRun(q) && Extends(q, r) && n in Last(r).nodes
    requires Last(r).nodes[n].slot.mount == Some(h) && Last(r).nodes[n].slot.open == Some(h.epoch)
    ensures var k := Look(r, r, r, q, false);
            IsLook(k, n, h) && EpochSeen(k, n, h) == h.epoch
  {
    assert Extends(r, r);
  }

  /** The leave gate is fooled the same way. One run, its arms and publishes all safe, passes through a
      state in which the gate lists the mount at 1 and reads epoch 1 for it, and goes on to one in which
      it finds a marker at 2, although only this node ever served. */
  lemma GateFooledByRemount()
    ensures exists k: Look ::
              IsLook(k, 0, H1) && EpochSeen(k, 0, H1) == 1 && !k.failed && Last(k.atMarker) == REMOUNTED
    ensures REMOUNTED.g.marker == Some(2) && !OtherServedAt(REMOUNTED, 0, 2)
    ensures REMOUNTED.g.armsSafe && REMOUNTED.g.marksSafe
  {
    FirstMount();
    var atRead :| IsRun(atRead) && Extends(atRead, CLEAN_RUN) && Last(atRead) == FIRST;
    assert Extends(atRead, atRead);
    RemountUnderTheGate(atRead);
    var atMarker :| IsRun(atMarker) && Extends(atMarker, atRead) && Last(atMarker) == REMOUNTED;
    SteadyLook(atRead, atMarker, 0, H1);
  }

  // ------------------------------------------------------------ a marker that falls

  const K2 := Handle(1, 2)
  const HOLDER := At(Some(K2), Finishing)
  const RIVAL := SERVED1.(durable := 2, openers := map[1 := 0, 2 := 1], served := {H1, K2})

  /** Node 1 serves at 2 while node 0 stands as `x`, the position opened once. */
  lemma RivalServes(f: Run, x: Node)
    requires Reaches(f, Trio(x, FRESH, FRESH, SERVED1))
    ensures Reaches(f, Trio(x, At(Some(K2), MarkRead(2)), FRESH, RIVAL))
  {
    Serve(f, Trio(x, FRESH, FRESH, SERVED1), 1);
    SetTrio(x, FRESH, FRESH, SERVED1, At(Some(K2), MarkRead(2)), RIVAL);
    assert Serving(Trio(x, FRESH, FRESH, SERVED1), 1) == Trio(x, At(Some(K2), MarkRead(2)), FRESH, RIVAL);
  }

  /** Node 0 has found no marker and is about to put 1; node 1 serves at 2 and its marker lands. */
  lemma PutOutstanding()
    ensures Reaches(CLEAN_RUN,
                    Trio(At(Some(H1), MarkPut(1)), At(Some(K2), Finishing), FRESH, RIVAL.(marker := Some(2))))
  {
    var x, y := At(Some(H1), MarkPut(1)), At(Some(K2), MarkRead(2));
    FirstMount();
    Go0(CLEAN_RUN, At(Some(H1), MarkRead(1)), FRESH, FRESH, SERVED1, Acq(ReadForMark), x, SERVED1);
    RivalServes(CLEAN_RUN, x);
    LandMark(CLEAN_RUN, Trio(x, y, FRESH, RIVAL), 1);
    SetTrio(x, y, FRESH, RIVAL, At(Some(K2), Finishing), RIVAL.(marker := Some(2)));
  }

  /** The read-then-put marker write is not monotone: a put outstanding since before a higher one lands
      after it, and the marker falls from 2 to 1. */
  lemma MarkerFalls()
    ensures Reaches(CLEAN_RUN,
                    Trio(At(Some(H1), MarkPut(1)), At(Some(K2), Finishing), FRESH, RIVAL.(marker := Some(2))))
    ensures Reaches(CLEAN_RUN,
                    Trio(At(Some(H1), Finishing), At(Some(K2), Finishing), FRESH, RIVAL.(marker := Some(1))))
  {
    PutOutstanding();
    var x, y := At(Some(H1), MarkPut(1)), At(Some(K2), Finishing);
    Go0(CLEAN_RUN, x, y, FRESH, RIVAL.(marker := Some(2)), Acq(PutMark),
        At(Some(H1), Finishing), RIVAL.(marker := Some(1)));
  }

  // --------------------------------- a release on a marker left by an earlier owner

  const RIVAL_MARKED := RIVAL.(marker := Some(2))

  /** Node 0's mount at 1 is listed for a drain; node 1 serves at 2 and its marker lands. */
  lemma RivalMarksListed(f: Run)
    requires Reaches(f, QUIET)
    ensures Reaches(f, Trio(At(Some(H1), NotAcquiring).(rec := Listed), HOLDER, FRESH, RIVAL_MARKED))
  {
    var x, y := At(Some(H1), NotAcquiring), At(Some(K2), MarkRead(2));
    Go0(f, x, FRESH, FRESH, SERVED1, Rec(ListMounted), x.(rec := Listed), SERVED1);
    RivalServes(f, x.(rec := Listed));
    LandMark(f, Trio(x.(rec := Listed), y, FRESH, RIVAL), 1);
    SetTrio(x.(rec := Listed), y, FRESH, RIVAL, HOLDER, RIVAL_MARKED);
  }

  /** The read of a gate with no record and the durable read failed. */
  const READ0 := Gate(None, true, 2, {H1, K2})

  function Ungated(mount: Option<Handle>, acq: AcquirePc): Node {
    At(mount, acq).(rec := ArmAt(READ0))
  }

  /** The fenced mount is evicted, and node 0 reads its gate as 0. */
  lemma GateReadsZero(f: Run)
    requires Reaches(f, Trio(At(Some(H1), NotAcquiring).(rec := Listed), HOLDER, FRESH, RIVAL_MARKED))
    ensures Reaches(f, Trio(Ungated(None, NotAcquiring), HOLDER, FRESH, RIVAL_MARKED))
  {
    var x := At(Some(H1), NotAcquiring).(rec := Listed);
    Go0(f, x, HOLDER, FRESH, RIVAL_MARKED, Env(Evict(H1)), FRESH.(rec := Listed), RIVAL_MARKED);
    Go0(f, FRESH.(rec := Listed), HOLDER, FRESH, RIVAL_MARKED, Rec(ReadRecord),
        FRESH.(rec := Unrecorded), RIVAL_MARKED);
    Go0(f, FRESH.(rec := Unrecorded), HOLDER, FRESH, RIVAL_MARKED, Rec(ReadDurable(true)),
        Ungated(None, NotAcquiring), RIVAL_MARKED);
  }

  const H3 := Handle(0, 3)
  const TAKEN := RIVAL_MARKED.(durable := 3, openers := map[1 := 0, 2 := 1, 3 := 0], served := {H1, K2, H3})

  /** A prompt acquire opens and installs at 3, its marker lost. */
  lemma MountOverFailedGate(f: Run)
    requires Reaches(f, Trio(Ungated(None, NotAcquiring), HOLDER, FRESH, RIVAL_MARKED))
    ensures Reaches(f, Trio(Ungated(Some(H3), Finishing), HOLDER, FRESH, TAKEN))
  {
    var x, y := Ungated(None, NotAcquiring), Ungated(Some(H3), MarkRead(3));
    Serve(f, Trio(x, HOLDER, FRESH, RIVAL_MARKED), 0);
    SetTrio(x, HOLDER, FRESH, RIVAL_MARKED, y, TAKEN);
    assert Serving(Trio(x, HOLDER, FRESH, RIVAL_MARKED), 0) == Trio(y, HOLDER, FRESH, TAKEN);
    LoseMark(f, Trio(y, HOLDER, FRESH, TAKEN), 0);
    SetTrio(y, HOLDER, FRESH, TAKEN, Ungated(Some(H3), Finishing), TAKEN);
  }

  /** Node 0, mounted at 3, is about to arm at 0 under the marker at 2. */
  lemma AboutToArmAtZero()
    ensures Reaches(CLEAN_RUN, Trio(Ungated(Some(H3), Finishing), HOLDER, FRESH, TAKEN))
  {
    FirstMount();
    FirstMarkLost(CLEAN_RUN);
    RivalMarksListed(CLEAN_RUN);
    GateReadsZero(CLEAN_RUN);
    MountOverFailedGate(CLEAN_RUN);
  }

  const STALE := TAKEN.(armed := map[0 := Arming(H3, READ0)], released := [H3], armsSafe := false)

  /** A run with every publish safe: node 0 lets its mount at 3 go on the marker that node 1 left at 2,
      neither its own nor a successor's. */
  lemma ReleaseToEarlierOwner()
    ensures Reaches(CLEAN_RUN, Trio(At(None, Finishing), HOLDER, FRESH, STALE))
  {
    AboutToArmAtZero();
    var x := Ungated(Some(H3), Finishing);
    DrainAway(CLEAN_RUN, Trio(x, HOLDER, FRESH, TAKEN), 0, H3);
    SetTrio(x, HOLDER, FRESH, TAKEN, At(None, Finishing), STALE);
    assert Drained(Trio(x, HOLDER, FRESH, TAKEN), 0, H3) == Trio(At(None, Finishing), HOLDER, FRESH, STALE);
  }

  // --------------------------------- a marker at an epoch nobody ever served

  const OPENED := RIVAL.(durable := 3, openers := map[1 := 0, 2 := 1, 3 := 2])

  function Stuck(acq: AcquirePc): Node {
    Node(Slot(Some(H1), HandoffState(Acquiring, 0), acq != NotAcquiring, Some(1)), false, acq, Idle)
  }

  const DROPPED := At(Some(H1), NotAcquiring).(rec := StuckDropped)

  /** Node 0's mount is put in a gainer phase, and its marker write is lost. */
  lemma MountedGainer(f: Run)
    requires Reaches(f, FIRST)
    ensures Reaches(f, Trio(Stuck(Finishing), FRESH, FRESH, SERVED1))
  {
    Go0(f, At(Some(H1), MarkRead(1)), FRESH, FRESH, SERVED1, Rec(BeginAcquiring), Stuck(MarkRead(1)), SERVED1);
    Go0(f, Stuck(MarkRead(1)), FRESH, FRESH, SERVED1, Acq(MarkFails), Stuck(Finishing), SERVED1);
  }

  /** The stuck flip is resolved up to its epoch read. */
  lemma StuckFlip(f: Run)
    requires Reaches(f, Trio(Stuck(Finishing), FRESH, FRESH, SERVED1))
    ensures Reaches(f, Trio(DROPPED, FRESH, FRESH, SERVED1))
  {
    Go0(f, Stuck(Finishing), FRESH, FRESH, SERVED1, Acq(Finish), Stuck(NotAcquiring), SERVED1);
    Go0(f, Stuck(NotAcquiring), FRESH, FRESH, SERVED1, Rec(StuckDrop), DROPPED, SERVED1);
  }

  const GONE := FRESH.(rec := StuckDropped)

  /** Node 1 serves at 2, its marker lost. */
  lemma RivalUnmarked(f: Run)
    requires Reaches(f, Trio(DROPPED, FRESH, FRESH, SERVED1))
    ensures Reaches(f, Trio(DROPPED, HOLDER, FRESH, RIVAL))
  {
    RivalServes(f, DROPPED);
    LoseMark(f, Trio(DROPPED, At(Some(K2), MarkRead(2)), FRESH, RIVAL), 1);
    SetTrio(DROPPED, At(Some(K2), MarkRead(2)), FRESH, RIVAL, HOLDER, RIVAL);
  }

  const RACING := At(None, HasOpened(Handle(2, 3)))

  /** Node 0 is fenced out, and node 2 opens 3 without installing it. */
  lemma FencedOut(f: Run)
    requires Reaches(f, Trio(DROPPED, HOLDER, FRESH, RIVAL))
    ensures Reaches(f, Trio(GONE, HOLDER, RACING, OPENED))
  {
    Go0(f, DROPPED, HOLDER, FRESH, RIVAL, Env(Evict(H1)), GONE, RIVAL);
    Race(f, Trio(GONE, HOLDER, FRESH, RIVAL), 2);
    SetTrio(GONE, HOLDER, FRESH, RIVAL, RACING, OPENED);
    assert Racing(Trio(GONE, HOLDER, FRESH, RIVAL), 2) == Trio(GONE, HOLDER, RACING, OPENED);
  }

  const FOOLED := OPENED.(marker := Some(3), marksSafe := false)

  const MISREAD := FRESH.(rec := StuckRead(3))

  /** Node 0, its record gone, reads the durable epoch. */
  lemma ReadUnserved(f: Run)
    requires Reaches(f, Trio(GONE, HOLDER, RACING, OPENED))
    ensures Reaches(f, Trio(MISREAD, HOLDER, RACING, OPENED.(marksSafe := false)))
  {
    var x, y := FRESH.(rec := StuckUnrecorded), FRESH.(rec := StuckFallback);
    Go0(f, GONE, HOLDER, RACING, OPENED, Rec(StuckRecord), x, OPENED);
    Go0(f, x, HOLDER, RACING, OPENED, Rec(StuckRecord), y, OPENED);
    Go0(f, y, HOLDER, RACING, OPENED, Rec(StuckDurable(false)), MISREAD, OPENED.(marksSafe := false));
  }

  /** And publishes it. */
  lemma UnservedMark(f: Run)
    requires Reaches(f, Trio(MISREAD, HOLDER, RACING, OPENED.(marksSafe := false)))
    ensures Reaches(f, Trio(FRESH, HOLDER, RACING, FOOLED))
  {
    var s := Trio(MISREAD, HOLDER, RACING, OPENED.(marksSafe := false));
    LeadsBy(s, 0, Rec(StuckReadForMark), Rec(StuckPutMark), FRESH.(rec := StuckPut(3)), s.g, FRESH, FOOLED);
    Walk(f, s, 0, Rec(StuckReadForMark), Rec(StuckPutMark), Set(s, 0, FRESH, FOOLED));
    SetTrio(MISREAD, HOLDER, RACING, s.g, FRESH, FOOLED);
  }

  /** The read of a gate at 2, off the record of the mount at 2. */
  const READ2 := Gate(Some(2), false, 3, {H1, K2})

  lemma GateAtTwo(f: Run)
    requires Reaches(f, Trio(FRESH, HOLDER, RACING, FOOLED))
    ensures Reaches(f, Trio(FRESH, HOLDER.(rec := ArmAt(READ2)), RACING, FOOLED))
  {
    var s, x := Trio(FRESH, HOLDER, RACING, FOOLED), HOLDER.(rec := ArmAt(READ2));
    LeadsBy(s, 1, Rec(ListMounted), Rec(ReadRecord), HOLDER.(rec := Listed), FOOLED, x, FOOLED);
    SetTrio(FRESH, HOLDER, RACING, FOOLED, x, FOOLED);
    Walk(f, s, 1, Rec(ListMounted), Rec(ReadRecord), Set(s, 1, x, FOOLED));
  }

  /** Node 1 is mounted at 2 under a marker at 3 that nobody served. */
  lemma MarkedUnserved()
    ensures Reaches(CLEAN_RUN, Trio(FRESH, HOLDER, RACING, FOOLED))
  {
    FirstMount();
    MountedGainer(CLEAN_RUN);
    StuckFlip(CLEAN_RUN);
    RivalUnmarked(CLEAN_RUN);
    FencedOut(CLEAN_RUN);
    ReadUnserved(CLEAN_RUN);
    UnservedMark(CLEAN_RUN);
  }

  /** The leave gate takes it for a successor: one look at node 1's mount, nothing happening meanwhile,
      reads epoch 2 and finds the marker at 3. */
  lemma GateFooledByUnserved()
    ensures exists k: Look ::
              && IsLook(k, 1, K2) && EpochSeen(k, 1, K2) == 2 && !k.failed
              && Last(k.atMarker) == Last(k.atList) && Last(k.atMarker).g.marker == Some(3)
              && !Served(Last(k.atMarker).g, 3) && Last(k.atMarker).g.armsSafe
  {
    MarkedUnserved();
    var r :| IsRun(r) && Extends(r, CLEAN_RUN) && Last(r) == Trio(FRESH, HOLDER, RACING, FOOLED);
    assert Extends(r, r) && Last(r).nodes[1] == HOLDER;
    SteadyLook(r, r, 1, K2);
    var k := Look(r, r, r, r, false);
    assert Last(k.atMarker).g.marker == Some(3);
  }

  const LET_GO := FOOLED.(armed := map[1 := Arming(K2, READ2)], released := [K2])

  /** A run with every arm safe: node 1 releases its mount at 2 while no node ever served above 2,
      because the marker it reads names an epoch that was opened and never installed. */
  lemma ReleaseToUnservedMark()
    ensures Reaches(CLEAN_RUN, Trio(FRESH, At(None, Finishing), RACING, LET_GO))
  {
    MarkedUnserved();
    GateAtTwo(CLEAN_RUN);
    var x := HOLDER.(rec := ArmAt(READ2));
    DrainAway(CLEAN_RUN, Trio(FRESH, x, RACING, FOOLED), 1, K2);
    SetTrio(FRESH, x, RACING, FOOLED, At(None, Finishing), LET_GO);
    assert Drained(Trio(FRESH, x, RACING, FOOLED), 1, K2) == Trio(FRESH, At(None, Finishing), RACING, LET_GO);
  }
}
