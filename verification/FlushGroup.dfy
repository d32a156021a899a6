/** Group commit of owner flushes: callers queue on their unit's state, one runner per state flushes
    for everyone queued before the flush began, and an unmount drops the state from the map while
    callers and runners may still hold it. */
module FlushGroup {
  import opened Basics

  type WaiterId = nat

  /** One unit's state, as its lock guards it. */
  datatype Cell = Cell(flushing: bool, pending: seq<WaiterId>)

  function EnqueueOn(c: Cell, w: WaiterId): (Cell, bool) {
    (Cell(true, c.pending + [w]), !c.flushing)
  }

  function SnapshotOf(c: Cell): (Cell, seq<WaiterId>) {
    (c.(pending := []), c.pending)
  }

  function CheckDone(c: Cell): (Cell, bool) {
    if c.pending == [] then (c.(flushing := false), true) else (c, false)
  }

  /** The three locked sections of `flushGroupState`. */
  class GroupState {
    var flushing: bool
    var pending: seq<WaiterId>

    constructor ()
      ensures View() == Cell(false, [])
    {
      flushing, pending := false, [];
    }

    function View(): Cell
      reads this
    {
      Cell(flushing, pending)
    }

    method Enqueue(w: WaiterId) returns (spawn: bool)
      modifies this
      ensures (View(), spawn) == EnqueueOn(old(View()), w)
    {
      pending := pending + [w];
      spawn := !flushing;
      if spawn { flushing := true; }
    }

    method Snapshot() returns (batch: seq<WaiterId>)
      modifies this
      ensures (View(), batch) == SnapshotOf(old(View()))
    {
      batch := pending;
      pending := [];
    }

    method Check() returns (exit: bool)
      modifies this
      ensures (View(), exit) == CheckDone(old(View()))
    {
      if |pending| == 0 {
        flushing := false;
        return true;
      }
      exit := false;
    }
  }

  // ------------------------------------------------------------------ the system

  /** When the flush that answered began, and what it returned. */
  datatype Answer = Answer(began: nat, err: bool)

  /** A caller that has queued: on which state, when, and what it has been sent. */
  datatype Waiter = Waiter(cell: nat, enq: nat, answers: seq<Answer>)

  /** A runner from the moment its slot is claimed: owed by its spawner, about to snapshot, holding a
      batch, inside Flush, sending, about to check, gone. */
  datatype RunnerPc =
    | Owed
    | AtSnapshot
    | Holding(batch: seq<WaiterId>)
    | Flushing(batch: seq<WaiterId>, began: nat)
    | Sending(batch: seq<WaiterId>, began: nat, err: bool)
    | AtCheck
    | Gone

  datatype Runner = Runner(cell: nat, pc: RunnerPc)

  /** A Flush call that returned: on which state, when it began, what it returned. */
  datatype Flushed = Flushed(cell: nat, began: nat, err: bool)

  /** `states` is the group's map; `cells` is every state ever created and `owner` the runner that has
      claimed it; `flushes` is the history of Flush calls and `now` numbers the steps. */
  datatype Sys = Sys(
    states: map<nat, nat>, cells: seq<Cell>, owner: seq<Option<nat>>,
    waiters: seq<Waiter>, runners: seq<Runner>, flushes: set<Flushed>, now: nat)

  const START := Sys(map[], [], [], [], [], {}, 0)

  datatype Step =
    | Lookup(unit: nat)
    | Forget(unit: nat)
    | Enqueue(cell: nat)
    | Spawn(r: nat)
    | Snapshot(r: nat)
    | Begin(r: nat)
    | End(r: nat, err: bool)
    | Send(r: nat)
    | Check(r: nat)

  predicate Enabled(s: Sys, step: Step) {
    match step
    case Lookup(_) => true
    case Forget(_) => true
    case Enqueue(c) => c < |s.cells|
    case Spawn(r) => r < |s.runners| && s.runners[r].pc == Owed
    case Snapshot(r) => r < |s.runners| && s.runners[r].pc == AtSnapshot
    case Begin(r) => r < |s.runners| && s.runners[r].pc.Holding?
    case End(r, _) => r < |s.runners| && s.runners[r].pc.Flushing?
    case Send(r) => r < |s.runners| && s.runners[r].pc.Sending?
    case Check(r) => r < |s.runners| && s.runners[r].pc == AtCheck
  }

  predicate Shaped(s: Sys) {
    |s.owner| == |s.cells|
    && (forall r | 0 <= r < |s.runners| :: s.runners[r].cell < |s.cells|)
    && (forall w | 0 <= w < |s.waiters| :: s.waiters[w].cell < |s.cells|)
    && (forall c | 0 <= c < |s.cells| :: Known(s, s.cells[c].pending))
    && (forall r | 0 <= r < |s.runners| :: Known(s, Batch(s.runners[r].pc)))
  }

  predicate Known(s: Sys, ws: seq<WaiterId>) {
    forall i | 0 <= i < |ws| :: ws[i] < |s.waiters|
  }

  function Batch(pc: RunnerPc): seq<WaiterId> {
    match pc
    case Holding(b) => b
    case Flushing(b, _) => b
    case Sending(b, _, _) => b
    case _ => []
  }

  function SetPc(s: Sys, r: nat, pc: RunnerPc): Sys
    requires r < |s.runners|
  {
    s.(runners := s.runners[r := s.runners[r].(pc := pc)], now := s.now + 1)
  }

  function Next(s: Sys, step: Step): Sys
    requires Shaped(s) && Enabled(s, step)
  {
    match step
    case Lookup(unit) =>
      if unit in s.states then s.(now := s.now + 1)
      else s.(states := s.states[unit := |s.cells|], cells := s.cells + [Cell(false, [])],
              owner := s.owner + [None], now := s.now + 1)
    case Forget(unit) => s.(states := s.states - {unit}, now := s.now + 1)
    case Enqueue(c) =>
      var (cell, spawn) := EnqueueOn(s.cells[c], |s.waiters|);
      var t := s.(cells := s.cells[c := cell], waiters := s.waiters + [Waiter(c, s.now, [])], now := s.now + 1);
      if spawn then t.(owner := s.owner[c := Some(|s.runners|)], runners := s.runners + [Runner(c, Owed)]) else t
    case Spawn(r) => SetPc(s, r, AtSnapshot)
    case Snapshot(r) =>
      var c := s.runners[r].cell;
      var (cell, batch) := SnapshotOf(s.cells[c]);
      SetPc(s.(cells := s.cells[c := cell]), r, Holding(batch))
    case Begin(r) => SetPc(s, r, Flushing(Batch(s.runners[r].pc), s.now))
    case End(r, err) =>
      var pc := s.runners[r].pc;
      SetPc(s.(flushes := s.flushes + {Flushed(s.runners[r].cell, pc.began, err)}), r, Sending(pc.batch, pc.began, err))
    case Send(r) =>
      var pc := s.runners[r].pc;
      if pc.batch == [] then SetPc(s, r, AtCheck)
      else
        var w := pc.batch[0];
        var told := s.waiters[w].(answers := s.waiters[w].answers + [Answer(pc.began, pc.err)]);
        SetPc(s.(waiters := s.waiters[w := told]), r, Sending(pc.batch[1..], pc.began, pc.err))
    case Check(r) =>
      var c := s.runners[r].cell;
      var (cell, exit) := CheckDone(s.cells[c]);
      var t := s.(cells := s.cells[c := cell]);
      if exit then SetPc(t.(owner := s.owner[c := None]), r, Gone) else SetPc(t, r, AtSnapshot)
  }

  // ------------------------------------------------------------------ the invariant

  /** A state is claimed exactly while it has a runner, and nothing waits on an unclaimed one. */
  ghost predicate CellOk(s: Sys, c: nat)
    requires Shaped(s) && c < |s.cells|
  {
    && (s.cells[c].flushing <==> s.owner[c].Some?)
    && (s.owner[c].Some? ==>
          var r := s.owner[c].value;
          r < |s.runners| && s.runners[r].cell == c && s.runners[r].pc != Gone)
    && (s.cells[c].pending != [] ==> s.cells[c].flushing)
    && Distinct(s.cells[c].pending)
    && Waiting(s, s.cells[c].pending, c)
  }

  /** Everyone in `ws` queued on `c` and has had no answer. */
  ghost predicate Waiting(s: Sys, ws: seq<WaiterId>, c: nat)
    requires Known(s, ws)
  {
    forall w | w in ws :: s.waiters[w].cell == c && s.waiters[w].answers == []
  }

  ghost predicate RunnerOk(s: Sys, r: nat)
    requires Shaped(s) && r < |s.runners|
  {
    var x := s.runners[r];
    && (x.pc != Gone ==> s.owner[x.cell] == Some(r))
    && Distinct(Batch(x.pc))
    && Waiting(s, Batch(x.pc), x.cell)
    && (forall w | w in Batch(x.pc) :: w !in s.cells[x.cell].pending)
    && (x.pc.Flushing? || x.pc.Sending? ==>
          x.pc.began < s.now && forall w | w in Batch(x.pc) :: s.waiters[w].enq < x.pc.began)
    && (x.pc.Sending? ==> Flushed(x.cell, x.pc.began, x.pc.err) in s.flushes)
  }

  /** Where an unanswered waiter stands: queued, or in the batch of its state's runner. */
  ghost predicate Held(s: Sys, w: nat)
    requires Shaped(s) && w < |s.waiters|
  {
    var c := s.waiters[w].cell;
    w in s.cells[c].pending
    || (s.owner[c].Some? && s.owner[c].value < |s.runners| && w in Batch(s.runners[s.owner[c].value].pc))
  }

  ghost predicate WaiterOk(s: Sys, w: nat)
    requires Shaped(s) && w < |s.waiters|
  {
    var x := s.waiters[w];
    && x.enq < s.now && |x.answers| <= 1
    && (x.answers == [] ==> Held(s, w))
    && (x.answers != [] ==>
          x.enq < x.answers[0].began && Flushed(x.cell, x.answers[0].began, x.answers[0].err) in s.flushes)
  }

  ghost predicate Inv(s: Sys) {
    && Shaped(s)
    && (forall c | 0 <= c < |s.cells| :: CellOk(s, c))
    && (forall r | 0 <= r < |s.runners| :: RunnerOk(s, r))
    && (forall w | 0 <= w < |s.waiters| :: WaiterOk(s, w))
  }

  // ------------------------------------------------------------- every step keeps it

  lemma LookupKeeps(s: Sys, unit: nat)
    requires Inv(s)
    ensures Inv(Next(s, Lookup(unit)))
  {
    var t := Next(s, Lookup(unit));
    assert forall c | 0 <= c < |s.cells| :: t.cells[c] == s.cells[c] && t.owner[c] == s.owner[c];
    forall c | 0 <= c < |t.cells| ensures CellOk(t, c) { if c < |s.cells| { assert CellOk(s, c); } }
    forall r | 0 <= r < |t.runners| ensures RunnerOk(t, r) { assert RunnerOk(s, r); }
    forall w | 0 <= w < |t.waiters| ensures WaiterOk(t, w) { assert WaiterOk(s, w); }
  }

  lemma EnqueueShaped(s: Sys, c: nat)
    requires Inv(s) && c < |s.cells|
    ensures Shaped(Next(s, Enqueue(c)))
  {
  }

  lemma EnqueueCell(s: Sys, c: nat, d: nat)
    requires Inv(s) && c < |s.cells| && d < |s.cells| && Shaped(Next(s, Enqueue(c)))
    ensures CellOk(Next(s, Enqueue(c)), d)
  {
    assert CellOk(s, d);
  }

  lemma EnqueueRunner(s: Sys, c: nat, r: nat)
    requires Inv(s) && c < |s.cells| && r < |s.runners| && Shaped(Next(s, Enqueue(c)))
    ensures RunnerOk(Next(s, Enqueue(c)), r)
  {
    var t := Next(s, Enqueue(c));
    assert RunnerOk(s, r) && CellOk(s, c);
    assert t.runners[r] == s.runners[r];
    assert Known(s, Batch(s.runners[r].pc));
  }

  lemma EnqueueWaiter(s: Sys, c: nat, w: nat)
    requires Inv(s) && c < |s.cells| && w < |s.waiters| && Shaped(Next(s, Enqueue(c)))
    ensures WaiterOk(Next(s, Enqueue(c)), w)
  {
    var t := Next(s, Enqueue(c));
    assert WaiterOk(s, w) && CellOk(s, s.waiters[w].cell);
    assert t.waiters[w] == s.waiters[w];
    assert s.waiters[w].answers == [] ==> Held(s, w) && Held(t, w);
  }

  lemma EnqueueKeeps(s: Sys, c: nat)
    requires Inv(s) && c < |s.cells|
    ensures Inv(Next(s, Enqueue(c)))
  {
    var t := Next(s, Enqueue(c));
    EnqueueShaped(s, c);
    forall d | 0 <= d < |t.cells| ensures CellOk(t, d) { EnqueueCell(s, c, d); }
    forall r | 0 <= r < |t.runners| ensures RunnerOk(t, r) { if r < |s.runners| { EnqueueRunner(s, c, r); } }
    forall w | 0 <= w < |t.waiters| ensures WaiterOk(t, w) { if w < |s.waiters| { EnqueueWaiter(s, c, w); } }
  }

  /** Moving a runner to a pc with the same batch, not to the end. */
  lemma AdvanceKeeps(s: Sys, r: nat, pc: RunnerPc)
    requires Inv(s) && r < |s.runners| && s.runners[r].pc != Gone && pc != Gone
    requires Batch(pc) == Batch(s.runners[r].pc)
    requires pc.Sending? ==> Flushed(s.runners[r].cell, pc.began, pc.err) in s.flushes
    requires pc.Flushing? || pc.Sending? ==>
      || pc.began == s.now
      || ((s.runners[r].pc.Flushing? || s.runners[r].pc.Sending?) && pc.began == s.runners[r].pc.began)
    ensures Inv(SetPc(s, r, pc))
  {
    var t := SetPc(s, r, pc);
    forall q | 0 <= q < |t.runners| ensures Known(t, Batch(t.runners[q].pc)) {
      assert Known(s, Batch(s.runners[q].pc));
    }
    forall d | 0 <= d < |t.cells| ensures Known(t, t.cells[d].pending) { assert Known(s, s.cells[d].pending); }
    forall c | 0 <= c < |t.cells| ensures CellOk(t, c) { assert CellOk(s, c); }
    forall q | 0 <= q < |t.runners| ensures RunnerOk(t, q) {
      assert RunnerOk(s, q);
      if q == r { forall w | w in Batch(pc) ensures s.waiters[w].enq < s.now { assert WaiterOk(s, w); } }
    }
    forall w | 0 <= w < |t.waiters| ensures WaiterOk(t, w) { assert WaiterOk(s, w); }
  }

  lemma SnapshotShaped(s: Sys, r: nat)
    requires Inv(s) && Enabled(s, Snapshot(r))
    ensures Shaped(Next(s, Snapshot(r)))
  {
  }

  lemma CheckShaped(s: Sys, r: nat)
    requires Inv(s) && Enabled(s, Check(r))
    ensures Shaped(Next(s, Check(r)))
  {
  }

  lemma SendShaped(s: Sys, r: nat)
    requires Inv(s) && Enabled(s, Send(r)) && s.runners[r].pc.batch != []
    ensures Shaped(Next(s, Send(r)))
  {
  }

  lemma SnapshotCell(s: Sys, r: nat, d: nat)
    requires Inv(s) && Enabled(s, Snapshot(r)) && Shaped(Next(s, Snapshot(r))) && d < |s.cells|
    ensures CellOk(Next(s, Snapshot(r)), d)
  {
    assert CellOk(s, d) && RunnerOk(s, r);
  }

  lemma SnapshotRunner(s: Sys, r: nat, q: nat)
    requires Inv(s) && Enabled(s, Snapshot(r)) && Shaped(Next(s, Snapshot(r))) && q < |s.runners|
    ensures RunnerOk(Next(s, Snapshot(r)), q)
  {
    assert RunnerOk(s, q) && RunnerOk(s, r) && CellOk(s, s.runners[r].cell);
  }

  lemma SnapshotWaiter(s: Sys, r: nat, w: nat)
    requires Inv(s) && Enabled(s, Snapshot(r)) && Shaped(Next(s, Snapshot(r))) && w < |s.waiters|
    ensures WaiterOk(Next(s, Snapshot(r)), w)
  {
    assert WaiterOk(s, w) && RunnerOk(s, r);
  }

  lemma SnapshotKeeps(s: Sys, r: nat)
    requires Inv(s) && Enabled(s, Snapshot(r))
    ensures Inv(Next(s, Snapshot(r)))
  {
    var t := Next(s, Snapshot(r));
    SnapshotShaped(s, r);
    forall d | 0 <= d < |t.cells| ensures CellOk(t, d) { SnapshotCell(s, r, d); }
    forall q | 0 <= q < |t.runners| ensures RunnerOk(t, q) { SnapshotRunner(s, r, q); }
    forall w | 0 <= w < |t.waiters| ensures WaiterOk(t, w) { SnapshotWaiter(s, r, w); }
  }

  lemma CheckCell(s: Sys, r: nat, d: nat)
    requires Inv(s) && Enabled(s, Check(r)) && Shaped(Next(s, Check(r))) && d < |s.cells|
    ensures CellOk(Next(s, Check(r)), d)
  {
    assert CellOk(s, d) && RunnerOk(s, r);
  }

  lemma CheckRunner(s: Sys, r: nat, q: nat)
    requires Inv(s) && Enabled(s, Check(r)) && Shaped(Next(s, Check(r))) && q < |s.runners|
    ensures RunnerOk(Next(s, Check(r)), q)
  {
    assert RunnerOk(s, q) && RunnerOk(s, r);
  }

  lemma CheckWaiter(s: Sys, r: nat, w: nat)
    requires Inv(s) && Enabled(s, Check(r)) && Shaped(Next(s, Check(r))) && w < |s.waiters|
    ensures WaiterOk(Next(s, Check(r)), w)
  {
    assert WaiterOk(s, w) && RunnerOk(s, r);
  }

  lemma CheckKeeps(s: Sys, r: nat)
    requires Inv(s) && Enabled(s, Check(r))
    ensures Inv(Next(s, Check(r)))
  {
    var t := Next(s, Check(r));
    CheckShaped(s, r);
    forall d | 0 <= d < |t.cells| ensures CellOk(t, d) { CheckCell(s, r, d); }
    forall q | 0 <= q < |t.runners| ensures RunnerOk(t, q) { CheckRunner(s, r, q); }
    forall w | 0 <= w < |t.waiters| ensures WaiterOk(t, w) { CheckWaiter(s, r, w); }
  }

  lemma SendCell(s: Sys, r: nat, d: nat)
    requires Inv(s) && Enabled(s, Send(r)) && s.runners[r].pc.batch != [] && Shaped(Next(s, Send(r))) && d < |s.cells|
    ensures CellOk(Next(s, Send(r)), d)
  {
    assert CellOk(s, d) && RunnerOk(s, r);
    assert s.runners[r].pc.batch[0] !in s.cells[d].pending;
  }

  lemma DistinctTail(b: seq<WaiterId>)
    requires Distinct(b) && b != []
    ensures Distinct(b[1..]) && b[0] !in b[1..] && forall w | w in b[1..] :: w in b
  {
  }

  /** The runner that sends keeps the rest of its batch. */
  lemma SendOwnRunner(s: Sys, r: nat)
    requires Inv(s) && Enabled(s, Send(r)) && s.runners[r].pc.batch != [] && Shaped(Next(s, Send(r)))
    ensures RunnerOk(Next(s, Send(r)), r)
  {
    var t, b := Next(s, Send(r)), s.runners[r].pc.batch;
    assert RunnerOk(s, r);
    DistinctTail(b);
    assert forall w | w in b[1..] :: t.waiters[w] == s.waiters[w];
    assert t.cells == s.cells && t.owner == s.owner && t.flushes == s.flushes;
  }

  /** The others do not hold the waiter it answers. */
  lemma SendOtherRunner(s: Sys, r: nat, q: nat)
    requires Inv(s) && Enabled(s, Send(r)) && s.runners[r].pc.batch != [] && Shaped(Next(s, Send(r)))
    requires q < |s.runners| && q != r
    ensures RunnerOk(Next(s, Send(r)), q)
  {
    var t, b := Next(s, Send(r)), Batch(s.runners[q].pc);
    assert RunnerOk(s, q) && RunnerOk(s, r);
    assert s.runners[r].pc.batch[0] !in b;
    assert forall w | w in b :: t.waiters[w] == s.waiters[w];
    assert t.runners[q] == s.runners[q];
  }

  lemma SendWaiter(s: Sys, r: nat, w: nat)
    requires Inv(s) && Enabled(s, Send(r)) && s.runners[r].pc.batch != [] && Shaped(Next(s, Send(r))) && w < |s.waiters|
    ensures WaiterOk(Next(s, Send(r)), w)
  {
    assert WaiterOk(s, w) && RunnerOk(s, r);
  }

  lemma SendKeeps(s: Sys, r: nat)
    requires Inv(s) && Enabled(s, Send(r)) && s.runners[r].pc.batch != []
    ensures Inv(Next(s, Send(r)))
  {
    var t := Next(s, Send(r));
    SendShaped(s, r);
    forall d | 0 <= d < |t.cells| ensures CellOk(t, d) { SendCell(s, r, d); }
    forall q | 0 <= q < |t.runners| ensures RunnerOk(t, q) {
      if q == r { SendOwnRunner(s, r); } else { SendOtherRunner(s, r, q); }
    }
    forall w | 0 <= w < |t.waiters| ensures WaiterOk(t, w) { SendWaiter(s, r, w); }
  }

  lemma ForgetKeeps(s: Sys, unit: nat)
    requires Inv(s)
    ensures Inv(Next(s, Forget(unit)))
  {
    var t := Next(s, Forget(unit));
    forall c | 0 <= c < |t.cells| ensures CellOk(t, c) { assert CellOk(s, c); }
    forall r | 0 <= r < |t.runners| ensures RunnerOk(t, r) { assert RunnerOk(s, r); }
    forall w | 0 <= w < |t.waiters| ensures WaiterOk(t, w) { assert WaiterOk(s, w); }
  }

  lemma RecordKeeps(s: Sys, u: Sys)
    requires Inv(s) && s.flushes <= u.flushes && u == s.(flushes := u.flushes)
    ensures Inv(u)
  {
    forall c | 0 <= c < |u.cells| ensures CellOk(u, c) { assert CellOk(s, c); }
    forall r | 0 <= r < |u.runners| ensures RunnerOk(u, r) { assert RunnerOk(s, r); }
    forall w | 0 <= w < |u.waiters| ensures WaiterOk(u, w) { assert WaiterOk(s, w); }
  }

  lemma StepKeepsInv(s: Sys, step: Step)
    requires Inv(s) && Enabled(s, step)
    ensures Inv(Next(s, step))
  {
    match step
    case Lookup(unit) => LookupKeeps(s, unit);
    case Forget(unit) => ForgetKeeps(s, unit);
    case Enqueue(c) => EnqueueKeeps(s, c);
    case Spawn(r) => AdvanceKeeps(s, r, AtSnapshot);
    case Snapshot(r) => SnapshotKeeps(s, r);
    case Begin(r) => AdvanceKeeps(s, r, Flushing(Batch(s.runners[r].pc), s.now));
    case End(r, err) =>
      var pc := s.runners[r].pc;
      var u := s.(flushes := s.flushes + {Flushed(s.runners[r].cell, pc.began, err)});
      RecordKeeps(s, u);
      AdvanceKeeps(u, r, Sending(pc.batch, pc.began, err));
    case Send(r) => if s.runners[r].pc.batch == [] { AdvanceKeeps(s, r, AtCheck); } else { SendKeeps(s, r); }
    case Check(r) => CheckKeeps(s, r);
  }

  // -------------------------------------------------------------------- whole runs

  datatype Run = Fresh | Then(before: Run, step: Step)

  /** `Shaped` only gives the indices meaning; it holds after every step (RunKeepsInv). */
  ghost predicate IsRun(r: Run)
    decreases r, 0
  {
    r.Then? ==> IsRun(r.before) && Shaped(Last(r.before)) && Enabled(Last(r.before), r.step)
  }

  ghost function Last(r: Run): Sys
    requires IsRun(r)
    decreases r, 1
  {
    match r case Fresh => START case Then(before, step) => Next(Last(before), step)
  }

  lemma {:induction false} RunKeepsInv(r: Run)
    requires IsRun(r)
    ensures Inv(Last(r))
  {
    if r.Then? {
      RunKeepsInv(r.before);
      StepKeepsInv(Last(r.before), r.step);
    }
  }

  /** In every interleaving a waiter is answered at most once, and by a Flush of its own state that
      began after it queued: everything committed before it queued is covered by that flush. */
  lemma AnswerIsALaterFlush(r: Run, w: nat)
    requires IsRun(r) && w < |Last(r).waiters|
    ensures var x := Last(r).waiters[w];
            && |x.answers| <= 1
            && (x.answers != [] ==>
                  exists f | f in Last(r).flushes ::
                    f.cell == x.cell && f.began > x.enq && x.answers[0] == Answer(f.began, f.err))
  {
    RunKeepsInv(r);
    assert WaiterOk(Last(r), w);
    var x := Last(r).waiters[w];
    if x.answers != [] { assert Flushed(x.cell, x.answers[0].began, x.answers[0].err) in Last(r).flushes; }
  }

  /** At most one runner, owed or running, is ever attached to a state. */
  lemma OneRunnerPerState(r: Run, i: nat, j: nat)
    requires IsRun(r) && i < |Last(r).runners| && j < |Last(r).runners|
    requires Last(r).runners[i].pc != Gone && Last(r).runners[j].pc != Gone
    requires Last(r).runners[i].cell == Last(r).runners[j].cell
    ensures i == j
  {
    RunKeepsInv(r);
    assert RunnerOk(Last(r), i) && RunnerOk(Last(r), j);
  }

  /** The step a runner takes next. */
  function RunnerStep(s: Sys, i: nat): Step
    requires i < |s.runners| && s.runners[i].pc != Gone
  {
    match s.runners[i].pc
    case Owed => Spawn(i)
    case AtSnapshot => Snapshot(i)
    case Holding(_) => Begin(i)
    case Flushing(_, _) => End(i, false)
    case Sending(_, _, _) => Send(i)
    case AtCheck => Check(i)
  }

  /** No waiter is stranded: one without an answer has a runner, owed or running, that can move. */
  lemma UnansweredHasARunner(r: Run, w: nat)
    requires IsRun(r) && w < |Last(r).waiters| && Last(r).waiters[w].answers == []
    ensures exists i | 0 <= i < |Last(r).runners| ::
              && Last(r).runners[i].cell == Last(r).waiters[w].cell && Last(r).runners[i].pc != Gone
              && Enabled(Last(r), RunnerStep(Last(r), i))
  {
    RunKeepsInv(r);
    var i := UnansweredIsAttended(Last(r), w);
    assert Enabled(Last(r), RunnerStep(Last(r), i));
  }

  // ------------------------------------------------- how long an answer can take

  /** Whose step it is. */
  function RunnerOf(step: Step): Option<nat> {
    match step
    case Lookup(_) => None
    case Forget(_) => None
    case Enqueue(_) => None
    case Spawn(r) => Some(r)
    case Snapshot(r) => Some(r)
    case Begin(r) => Some(r)
    case End(r, _) => Some(r)
    case Send(r) => Some(r)
    case Check(r) => Some(r)
  }

  function IndexOf(ws: seq<WaiterId>, w: WaiterId): (i: nat)
    requires w in ws
    ensures i < |ws| && ws[i] == w
  {
    if ws[0] == w then 0 else 1 + IndexOf(ws[1..], w)
  }

  lemma {:induction false} IndexOfSnoc(ws: seq<WaiterId>, w: WaiterId, x: WaiterId)
    requires w in ws
    ensures IndexOf(ws + [x], w) == IndexOf(ws, w)
  {
    if ws[0] != w {
      IndexOfSnoc(ws[1..], w, x);
      assert (ws + [x])[1..] == ws[1..] + [x];
    }
  }

  /** An unanswered waiter and the runner that has claimed its state. */
  ghost predicate Attended(s: Sys, w: nat, i: nat) {
    && Shaped(s) && w < |s.waiters| && s.waiters[w].answers == []
    && i < |s.runners| && s.runners[i].pc != Gone && s.owner[s.waiters[w].cell] == Some(i)
    && s.runners[i].cell == s.waiters[w].cell
    && (w in s.cells[s.waiters[w].cell].pending || w in Batch(s.runners[i].pc))
  }

  /** How many steps of that runner are left until the answer: to send down the batch it holds, or
      first to finish that batch and snapshot the queue. */
  ghost function StepsLeft(s: Sys, w: nat, i: nat): nat
    requires Attended(s, w, i)
  {
    var pc := s.runners[i].pc;
    if w in Batch(pc) then IndexOf(Batch(pc), w) + (if pc.Holding? then 3 else if pc.Flushing? then 2 else 1)
    else
      IndexOf(s.cells[s.waiters[w].cell].pending, w) + 4 + |Batch(pc)|
      + match pc
        case Owed => 1
        case AtSnapshot => 0
        case Holding(_) => 4
        case Flushing(_, _) => 3
        case Sending(_, _, _) => 2
        case AtCheck => 1
        case Gone => 0
  }

  lemma UnansweredIsAttended(s: Sys, w: nat) returns (i: nat)
    requires Inv(s) && w < |s.waiters| && s.waiters[w].answers == []
    ensures Attended(s, w, i)
  {
    var c := s.waiters[w].cell;
    assert WaiterOk(s, w) && CellOk(s, c);
    i := s.owner[c].value;
  }

  /** What another's step does to the waiter, its runner and its state: at most queue someone behind. */
  lemma OthersKeepAway(s: Sys, step: Step, w: nat, i: nat)
    requires Inv(s) && Enabled(s, step) && Attended(s, w, i) && RunnerOf(step) != Some(i)
    ensures
      var t, c := Next(s, step), s.waiters[w].cell;
      && w < |t.waiters| && t.waiters[w] == s.waiters[w]
      && i < |t.runners| && t.runners[i] == s.runners[i]
      && c < |t.cells| && c < |t.owner| && t.owner[c] == s.owner[c]
      && (t.cells[c].pending == s.cells[c].pending || t.cells[c].pending == s.cells[c].pending + [|s.waiters|])
  {
    assert CellOk(s, s.waiters[w].cell);
    match step
    case Send(q) => assert RunnerOk(s, q);
    case Snapshot(q) => assert RunnerOk(s, q);
    case Check(q) => assert RunnerOk(s, q);
    case _ =>
  }

  /** Nobody else's step brings the answer nearer or puts it off. */
  lemma OthersLeave(s: Sys, step: Step, w: nat, i: nat)
    requires Inv(s) && Enabled(s, step) && Attended(s, w, i) && RunnerOf(step) != Some(i)
    ensures Attended(Next(s, step), w, i) && StepsLeft(Next(s, step), w, i) == StepsLeft(s, w, i)
  {
    StepKeepsInv(s, step);
    OthersKeepAway(s, step, w, i);
    var queue := s.cells[s.waiters[w].cell].pending;
    if w in queue { IndexOfSnoc(queue, w, |s.waiters|); }
    assert RunnerOk(s, i);
  }

  lemma BatchCountsDown(s: Sys, step: Step, w: nat, i: nat)
    requires Inv(s) && Enabled(s, step) && Attended(s, w, i) && RunnerOf(step) == Some(i)
    requires w in Batch(s.runners[i].pc) && Shaped(Next(s, step))
    ensures
      var t := Next(s, step);
      if StepsLeft(s, w, i) == 1 then t.waiters[w].answers != []
      else Attended(t, w, i) && StepsLeft(t, w, i) == StepsLeft(s, w, i) - 1
  {
    assert RunnerOk(s, i);
  }

  lemma QueueCountsDown(s: Sys, step: Step, w: nat, i: nat)
    requires Inv(s) && Enabled(s, step) && Attended(s, w, i) && RunnerOf(step) == Some(i)
    requires w !in Batch(s.runners[i].pc) && Shaped(Next(s, step))
    ensures
      var t := Next(s, step);
      StepsLeft(s, w, i) > 1 && Attended(t, w, i) && StepsLeft(t, w, i) == StepsLeft(s, w, i) - 1
  {
    assert CellOk(s, s.waiters[w].cell);
  }

  /** Each of its runner's steps brings it one nearer, and the last one delivers it. */
  lemma RunnerCountsDown(s: Sys, step: Step, w: nat, i: nat)
    requires Inv(s) && Enabled(s, step) && Attended(s, w, i) && RunnerOf(step) == Some(i)
    ensures Shaped(Next(s, step)) && |Next(s, step).waiters| == |s.waiters|
    ensures
      var t := Next(s, step);
      if StepsLeft(s, w, i) == 1 then t.waiters[w].answers != []
      else Attended(t, w, i) && StepsLeft(t, w, i) == StepsLeft(s, w, i) - 1
  {
    StepKeepsInv(s, step);
    if w in Batch(s.runners[i].pc) { BatchCountsDown(s, step, w, i); } else { QueueCountsDown(s, step, w, i); }
  }

  /** How one step moves the count. */
  lemma StepCounts(s: Sys, step: Step, w: nat, i: nat)
    requires Inv(s) && Enabled(s, step) && Attended(s, w, i)
    ensures Shaped(Next(s, step)) && w < |Next(s, step).waiters|
    ensures
      var t, n := Next(s, step), if RunnerOf(step) == Some(i) then 1 else 0;
      && (t.waiters[w].answers == [] <==> n < StepsLeft(s, w, i))
      && (t.waiters[w].answers == [] ==> Attended(t, w, i) && StepsLeft(t, w, i) == StepsLeft(s, w, i) - n)
  {
    if RunnerOf(step) == Some(i) {
      RunnerCountsDown(s, step, w, i);
    } else {
      OthersLeave(s, step, w, i);
    }
  }

  lemma AnswerStays(s: Sys, step: Step, w: nat)
    requires Inv(s) && Enabled(s, step) && w < |s.waiters| && s.waiters[w].answers != []
    ensures Shaped(Next(s, step)) && w < |Next(s, step).waiters| && Next(s, step).waiters[w].answers != []
  {
    StepKeepsInv(s, step);
  }

  ghost predicate Extends(r: Run, p: Run) {
    r == p || (r.Then? && Extends(r.before, p))
  }

  /** The steps runner `i` has taken since `p`. */
  ghost function StepsTaken(r: Run, p: Run, i: nat): nat
    requires Extends(r, p)
  {
    if r == p then 0 else StepsTaken(r.before, p, i) + (if RunnerOf(r.step) == Some(i) then 1 else 0)
  }

  /** In every continuation, whatever all the others do, the waiter is unanswered exactly as long as its
      runner has taken fewer than the steps that were left; and then just the difference is left. */
  lemma {:induction false} AnsweredAfterIff(r: Run, p: Run, w: nat, i: nat)
    requires IsRun(r) && IsRun(p) && Extends(r, p) && Attended(Last(p), w, i)
    ensures Shaped(Last(r)) && w < |Last(r).waiters|
    ensures Last(r).waiters[w].answers == [] <==> StepsTaken(r, p, i) < StepsLeft(Last(p), w, i)
    ensures Last(r).waiters[w].answers == [] ==>
      Attended(Last(r), w, i) && StepsLeft(Last(r), w, i) == StepsLeft(Last(p), w, i) - StepsTaken(r, p, i)
  {
    if r != p {
      var s := Last(r.before);
      AnsweredAfterIff(r.before, p, w, i);
      RunKeepsInv(r.before);
      if s.waiters[w].answers == [] { StepCounts(s, r.step, w, i); } else { AnswerStays(s, r.step, w); }
    }
  }

  /** Once the runners are gone every waiter has had exactly one answer. */
  lemma QuietMeansAnswered(r: Run, w: nat)
    requires IsRun(r) && w < |Last(r).waiters|
    requires forall i | 0 <= i < |Last(r).runners| :: Last(r).runners[i].pc == Gone
    ensures |Last(r).waiters[w].answers| == 1
  {
    AnswerIsALaterFlush(r, w);
    if Last(r).waiters[w].answers == [] { UnansweredHasARunner(r, w); }
  }
}
