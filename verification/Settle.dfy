/** The settle timer: arms that debounce a reconcile, timers that fire, callbacks that run it, and a
    Close, counted by one pending-obligation counter. */
module Settle {
  import opened Basics

  /** What an arm sees of the pending timer. */
  datatype SettleState = SettleState(armed: bool, fired: bool, immediate: bool)

  datatype ArmDecision = ArmDecision(delay: nat, immediate: bool, newObligation: bool)

  function SettleArm(cur: SettleState, requested: nat): ArmDecision {
    if cur.armed && !cur.fired then
      if cur.immediate && requested > 0 then ArmDecision(0, true, false)
      else ArmDecision(requested, requested == 0, false)
    else ArmDecision(requested, requested == 0, true)
  }

  // -------------------------------------------------------------------- the machine

  /** A timer: running, stopped before it fired, or fired with its callback at a stage. */
  datatype Stage = Live | Stopped | Fired | Cleared | Done

  datatype Timer = Timer(delay: nat, stage: Stage)

  /** `arming` counts arms past their closed check and not yet in the lock, with the delay each asked
      for. */
  datatype Sys = Sys(
    timers: seq<Timer>, cur: Option<nat>, immediate: bool, pending: int,
    arming: multiset<nat>, closed: bool, closing: bool)

  const START := Sys([], None, false, 0, multiset{}, false, false)

  datatype Step =
    | ArmCheck(d: nat)
    | ArmLocked(d: nat)
    | Fire(i: nat)
    | Clear(i: nat)
    | Finish(i: nat)
    | CloseFlag
    | CloseLocked

  predicate Enabled(s: Sys, step: Step) {
    match step
    case ArmCheck(d) => !s.closed
    case ArmLocked(d) => s.arming[d] > 0 && (s.cur.Some? ==> s.cur.value < |s.timers|)
    case Fire(i) => i < |s.timers| && s.timers[i].stage == Live
    case Clear(i) => i < |s.timers| && s.timers[i].stage == Fired
    case Finish(i) => i < |s.timers| && s.timers[i].stage == Cleared
    case CloseFlag => !s.closed
    case CloseLocked => s.closing && (s.cur.Some? ==> s.cur.value < |s.timers|)
  }

  /** The probe consumes a live timer and tells it from one that has fired. */
  function Stop(s: Sys, i: nat): (Sys, bool)
    requires i < |s.timers|
  {
    if s.timers[i].stage == Live then (s.(timers := s.timers[i := s.timers[i].(stage := Stopped)]), true)
    else (s, false)
  }

  function ArmLockedNext(s: Sys, d: nat): Sys
    requires s.cur.Some? ==> s.cur.value < |s.timers|
  {
    var (t, stopped) := if s.cur.Some? then Stop(s, s.cur.value) else (s, false);
    var dec := SettleArm(SettleState(s.cur.Some?, s.cur.Some? && !stopped, s.immediate), d);
    t.(pending := if dec.newObligation then t.pending + 1 else t.pending,
       immediate := dec.immediate, timers := t.timers + [Timer(dec.delay, Live)], cur := Some(|t.timers|))
  }

  function CloseLockedNext(s: Sys): Sys
    requires s.cur.Some? ==> s.cur.value < |s.timers|
  {
    if s.cur.None? then s.(closing := false)
    else
      var (t, stopped) := Stop(s, s.cur.value);
      t.(pending := if stopped then t.pending - 1 else t.pending, cur := None, closing := false)
  }

  function Next(s: Sys, step: Step): Sys
    requires Enabled(s, step)
  {
    match step
    case ArmCheck(d) => s.(arming := s.arming + multiset{d})
    case ArmLocked(d) => ArmLockedNext(s, d).(arming := s.arming - multiset{d})
    case Fire(i) => s.(timers := s.timers[i := s.timers[i].(stage := Fired)])
    case Clear(i) => s.(timers := s.timers[i := s.timers[i].(stage := Cleared)], cur := None, immediate := false)
    case Finish(i) => s.(timers := s.timers[i := s.timers[i].(stage := Done)], pending := s.pending - 1)
    case CloseFlag => s.(closed := true, closing := true)
    case CloseLocked => CloseLockedNext(s)
  }

  /** The locked halves as the code performs them, over the fields they share. */
  class Shell {
    var timers: seq<Timer>
    var cur: Option<nat>
    var immediate: bool
    var pending: int

    function View(): Sys
      reads this
    {
      Sys(timers, cur, immediate, pending, multiset{}, false, false)
    }

    constructor ()
      ensures View() == START
    {
      timers, cur, immediate, pending := [], None, false, 0;
    }

    method StopTimer(i: nat) returns (stopped: bool)
      requires i < |timers|
      modifies this
      ensures (View(), stopped) == Stop(old(View()), i)
    {
      stopped := timers[i].stage == Live;
      if stopped { timers := timers[i := timers[i].(stage := Stopped)]; }
    }

    method ScheduleReconcileIn(d: nat)
      requires cur.Some? ==> cur.value < |timers|
      modifies this
      ensures View() == ArmLockedNext(old(View()), d)
    {
      var st := SettleState(cur.Some?, false, immediate);
      if st.armed {
        var stopped := StopTimer(cur.value);
        st := st.(fired := !stopped);
      }
      var dec := SettleArm(st, d);
      if dec.newObligation { pending := pending + 1; }
      immediate := dec.immediate;
      timers, cur := timers + [Timer(dec.delay, Live)], Some(|timers|);
    }

    method CloseSettle()
      requires cur.Some? ==> cur.value < |timers|
      modifies this
      ensures View() == CloseLockedNext(old(View()))
    {
      if cur.Some? {
        var stopped := StopTimer(cur.value);
        if stopped { pending := pending - 1; }
        cur := None;
      }
    }
  }

  // -------------------------------------------------------------------- obligations

  /** A timer that still owes a decrement: it is live, or its callback has not finished. */
  predicate Owes(t: Timer) {
    t.stage == Live || t.stage == Fired || t.stage == Cleared
  }

  function Owing(ts: seq<Timer>): nat {
    if ts == [] then 0 else Owing(ts[..|ts| - 1]) + (if Owes(ts[|ts| - 1]) then 1 else 0)
  }

  lemma {:induction false} OwingUpdate(ts: seq<Timer>, i: nat, t: Timer)
    requires i < |ts|
    ensures Owing(ts[i := t]) == Owing(ts) - (if Owes(ts[i]) then 1 else 0) + (if Owes(t) then 1 else 0)
  {
    var front := ts[..|ts| - 1];
    if i == |ts| - 1 {
      assert ts[i := t][..|ts| - 1] == front;
    } else {
      OwingUpdate(front, i, t);
      assert ts[i := t][..|ts| - 1] == front[i := t];
    }
  }

  lemma OwingPush(ts: seq<Timer>, t: Timer)
    ensures Owing(ts + [t]) == Owing(ts) + (if Owes(t) then 1 else 0)
  {
  }

  ghost predicate Inv(s: Sys) {
    && s.pending == Owing(s.timers)
    && (s.cur.Some? ==>
          && s.cur.value < |s.timers|
          && s.timers[s.cur.value].stage in {Live, Fired}
          && (s.immediate <==> s.timers[s.cur.value].delay == 0))
  }

  lemma StopOwes(s: Sys, i: nat)
    requires i < |s.timers|
    ensures var (t, stopped) := Stop(s, i);
            |t.timers| == |s.timers| && Owing(t.timers) == Owing(s.timers) - (if stopped then 1 else 0)
  {
    OwingUpdate(s.timers, i, s.timers[i].(stage := Stopped));
  }

  lemma ArmKeepsInv(s: Sys, d: nat)
    requires Inv(s)
    ensures Inv(ArmLockedNext(s, d))
  {
    var t := if s.cur.Some? then Stop(s, s.cur.value).0 else s;
    if s.cur.Some? { StopOwes(s, s.cur.value); }
    var u := ArmLockedNext(s, d);
    OwingPush(t.timers, u.timers[|t.timers|]);
    assert u.timers == t.timers + [u.timers[|t.timers|]];
  }

  lemma MoveKeepsInv(s: Sys, step: Step)
    requires Inv(s) && Enabled(s, step) && (step.Fire? || step.Clear? || step.Finish?)
    ensures Inv(Next(s, step))
  {
    OwingUpdate(s.timers, step.i, Next(s, step).timers[step.i]);
  }

  lemma StepKeepsInv(s: Sys, step: Step)
    requires Inv(s) && Enabled(s, step)
    ensures Inv(Next(s, step))
  {
    match step
    case ArmLocked(d) => ArmKeepsInv(s, d);
    case CloseLocked => if s.cur.Some? { StopOwes(s, s.cur.value); }
    case ArmCheck(_) =>
    case CloseFlag =>
    case _ => MoveKeepsInv(s, step);
  }

  // -------------------------------------------------------------------- whole runs

  datatype Run = Fresh | Then(before: Run, step: Step)

  ghost predicate IsRun(r: Run)
    decreases r, 0
  {
    r.Then? ==> IsRun(r.before) && Enabled(Last(r.before), r.step)
  }

  ghost function Last(r: Run): Sys
    requires IsRun(r)
    decreases r, 1
  {
    match r case Fresh => START case Then(before, step) => Next(Last(before), step)
  }

  /** In every interleaving of arms, firings, callbacks and Close the counter is the number of timers
      that are live plus the callbacks that have not finished. It is therefore never negative, and zero
      exactly when nothing is owed. */
  lemma {:induction false} PendingCountsObligations(r: Run)
    requires IsRun(r)
    ensures Inv(Last(r))
    ensures Last(r).pending == Owing(Last(r).timers) >= 0
  {
    if r.Then? {
      PendingCountsObligations(r.before);
      StepKeepsInv(Last(r.before), r.step);
    }
  }

  lemma {:induction false} NothingOwedIff(ts: seq<Timer>)
    ensures Owing(ts) == 0 <==> forall i | 0 <= i < |ts| :: !Owes(ts[i])
  {
    if ts != [] {
      var front := ts[..|ts| - 1];
      NothingOwedIff(front);
      assert forall i | 0 <= i < |front| :: front[i] == ts[i];
    }
  }

  /** Idle, as a waiter reads it, means that no timer is live and no callback is under way. */
  lemma IdleIff(r: Run)
    requires IsRun(r)
    ensures Last(r).pending <= 0 <==> forall i | 0 <= i < |Last(r).timers| :: !Owes(Last(r).timers[i])
  {
    PendingCountsObligations(r);
    NothingOwedIff(Last(r).timers);
  }

  /** The same, from any state the invariant describes. */
  lemma ImmediateStep(s: Sys, step: Step, i: nat)
    requires Inv(s) && Enabled(s, step) && i < |s.timers| && s.timers[i] == Timer(0, Live)
    ensures var t := Next(s, step);
            i < |t.timers| &&
            (|| t.timers[i] == Timer(0, Live) || t.timers[i] == Timer(0, Fired)
             || (step.ArmLocked? && t.cur.Some? && t.cur.value < |t.timers| && t.timers[t.cur.value] == Timer(0, Live))
             || step.CloseLocked?)
  {
  }

  /** An arm that takes out a live zero-delay timer puts a zero-delay timer in its place, whatever it
      asked for: an immediate pass is never postponed by a debounced one. Every step that stops such a
      timer is an arm of this kind, or the Close. */
  lemma ImmediateNeverPostponed(r: Run, step: Step, i: nat)
    requires IsRun(r) && Enabled(Last(r), step) && i < |Last(r).timers|
    requires Last(r).timers[i] == Timer(0, Live)
    ensures var t := Next(Last(r), step);
            i < |t.timers| &&
            (|| t.timers[i] == Timer(0, Live) || t.timers[i] == Timer(0, Fired)
             || (step.ArmLocked? && t.cur.Some? && t.cur.value < |t.timers| && t.timers[t.cur.value] == Timer(0, Live))
             || step.CloseLocked?)
  {
    PendingCountsObligations(r);
    ImmediateStep(Last(r), step, i);
  }

  /** What an arm does, in every interleaving: it stops the current timer if that is live, touches no
      other, and starts a new one with its own delay, unless it replaces a live zero-delay timer. */
  lemma ArmGetsItsDelay(r: Run, d: nat)
    requires IsRun(r) && Enabled(Last(r), ArmLocked(d))
    ensures
      var s, t := Last(r), Next(Last(r), ArmLocked(d));
      && |t.timers| == |s.timers| + 1 && t.cur == Some(|s.timers|)
      && t.timers[|s.timers|]
         == Timer(if s.cur.Some? && s.timers[s.cur.value] == Timer(0, Live) then 0 else d, Live)
      && forall i | 0 <= i < |s.timers| ::
           t.timers[i] == if s.cur == Some(i) && s.timers[i].stage == Live then s.timers[i].(stage := Stopped)
                          else s.timers[i]
  {
    PendingCountsObligations(r);
  }

  /** What Close does: it stops the current timer if that is live, leaves no current one, and lets no
      further arm begin. */
  lemma CloseStopsTheTimer(r: Run, d: nat)
    requires IsRun(r) && Enabled(Last(r), CloseLocked)
    ensures
      var s, t := Last(r), Next(Last(r), CloseLocked);
      && t.cur == None && |t.timers| == |s.timers| && !Enabled(t, ArmCheck(d))
      && forall i | 0 <= i < |s.timers| ::
           t.timers[i] == if s.cur == Some(i) && s.timers[i].stage == Live then s.timers[i].(stage := Stopped)
                          else s.timers[i]
  {
    PendingCountsObligations(r);
    ClosingIsClosed(r);
  }

  lemma ClosingStep(s: Sys, step: Step)
    requires Enabled(s, step) && (s.closing ==> s.closed)
    ensures Next(s, step).closing ==> Next(s, step).closed
  {
  }

  lemma {:induction false} ClosingIsClosed(r: Run)
    requires IsRun(r)
    ensures Last(r).closing ==> Last(r).closed
  {
    if r.Then? {
      ClosingIsClosed(r.before);
      ClosingStep(Last(r.before), r.step);
    }
  }

  lemma Go(r: Run, s: Sys, step: Step) returns (u: Run, t: Sys)
    requires IsRun(r) && Last(r) == s && Enabled(s, step)
    ensures IsRun(u) && Last(u) == t == Next(s, step)
  {
    u, t := Then(r, step), Next(s, step);
  }

  /** The counter is what is exact: a callback clears the timer reference even when it names a newer
      timer, so two timers can be live at once. */
  lemma TwoTimersLive() returns (r: Run)
    ensures IsRun(r) && |Last(r).timers| == 3 && Last(r).pending == 3
    ensures Last(r).timers[1].stage == Live && Last(r).timers[2].stage == Live
  {
    r := Fresh;
    var s := START;
    r, s := Go(r, s, ArmCheck(1));
    r, s := Go(r, s, ArmLocked(1));
    r, s := Go(r, s, Fire(0));
    assert s == Sys([Timer(1, Fired)], Some(0), false, 1, multiset{}, false, false);
    r, s := Go(r, s, ArmCheck(1));
    r, s := Go(r, s, ArmLocked(1));
    r, s := Go(r, s, Clear(0));
    assert s == Sys([Timer(1, Cleared), Timer(1, Live)], None, false, 2, multiset{}, false, false);
    r, s := Go(r, s, ArmCheck(1));
    r, s := Go(r, s, ArmLocked(1));
  }
}
