/** The retry loop around a CAS commit on the local-owner path: which outcomes re-run the closure,
    how often at most, and which attempts touched the owner's store. */
module Transact {
  import opened Basics
  import opened ApplyIfNewer
  import opened CommitCas
  import opened CasRefinement

  datatype CommitError = CasConflict | Backend(err: Failure)

  /** `casResultToError`: a committed result is a success whatever the fan-out reported. */
  function ToError(r: CasResult): Option<CommitError> {
    match r
    case Committed(_) => None
    case Conflict => Some(CasConflict)
    case Failed(err) => Some(Backend(err))
  }

  /** `commitRetryable`: a fence or one of the two transient statuses. */
  predicate Retryable(e: CommitError) {
    e.Backend? && e.err != Terminal
  }

  /** One pass of the loop: the owner's store as the commit finds it, what the closure submitted (or
      that it failed), and how the owner's transaction and fan-out went. `late` says the wall-clock
      deadline had passed when the commit returned. */
  datatype Attempt = Attempt(
    pre: Store, fnFails: bool, tx: Submitted, replicated: bool, mounted: bool,
    t: Trouble, after: After, late: bool)

  function Result(a: Attempt): CasResult {
    var g := PreCommit(a.pre, a.tx.checks, a.tx.ops, a.replicated, a.mounted, a.t);
    if g.Pass? then PostCommit(a.replicated, a.tx.ops, a.after) else g.r
  }

  /** The write-set reached the owner's store. */
  predicate Applied(a: Attempt) {
    !a.fnFails && PreCommit(a.pre, a.tx.checks, a.tx.ops, a.replicated, a.mounted, a.t).Pass?
  }

  /** The owner applied the write-set, the fan-out missed W, and the flush that should have made the
      lone copy durable failed with an error the loop retries. */
  predicate RetriedFlush(a: Attempt) {
    Applied(a) && a.replicated && |a.tx.ops| > 0 && a.after.FlushFailed? && a.after.err != Terminal
  }

  datatype Outcome =
    | Success
    | FnFailed
    | CommitFailed(err: CommitError)
    | RetriesExhausted(err: CommitError)
    | ConflictsExhausted

  /** The attempt ended in a conflict. */
  predicate Conflicted(a: Attempt) {
    Result(a) == Conflict
  }

  /** The attempt ended in a failure that passes: a fence, or one of the two transient statuses. */
  predicate Transient(a: Attempt) {
    Result(a) in {Failed(Fenced), Failed(Unavailable), Failed(FailedPrecondition)}
  }

  function Conflicts(attempts: nat -> Attempt, n: nat): nat {
    if n == 0 then 0 else Conflicts(attempts, n - 1) + (if Conflicted(attempts(n - 1)) then 1 else 0)
  }

  function Transients(attempts: nat -> Attempt, n: nat): nat {
    if n == 0 then 0 else Transients(attempts, n - 1) + (if Transient(attempts(n - 1)) then 1 else 0)
  }

  /** What an attempt asks of the loop: to run again. */
  predicate RunsAgain(a: Attempt) {
    !a.fnFails && (Conflicted(a) || (Transient(a) && !a.late))
  }

  lemma ResultIs(a: Attempt)
    ensures ToError(Result(a)).None? <==> Result(a).Committed?
    ensures ToError(Result(a)) == Some(CasConflict) <==> Conflicted(a)
    ensures ToError(Result(a)).Some? && Retryable(ToError(Result(a)).value) <==> Transient(a)
    ensures (Conflicted(a) || Transient(a)) && !a.fnFails ==> (Applied(a) <==> RetriedFlush(a))
    ensures Conflicted(a) ==> !Applied(a)
  {
  }

  /** Why the loop ended as it did: on conflicts exactly after `casMax` of them, on transient failures
      exactly after `retryMax` retries or past the deadline, on a terminal failure, a failing closure or
      a commit at once. The last attempt fits no two of these. */
  ghost predicate Explains(out: Outcome, attempts: nat -> Attempt, calls: nat, casMax: nat, retryMax: nat) {
    if calls == 0 then casMax == 0 && out == ConflictsExhausted
    else
      var a := attempts(calls - 1);
      match out
      case FnFailed => a.fnFails
      case Success => !a.fnFails && Result(a).Committed? && Applied(a)
      case ConflictsExhausted => !a.fnFails && Conflicted(a) && Conflicts(attempts, calls) == casMax
      case RetriesExhausted(err) =>
        !a.fnFails && Transient(a) && !a.late && Transients(attempts, calls - 1) == retryMax
        && err.Backend? && Result(a) == Failed(err.err)
      case CommitFailed(err) =>
        !a.fnFails && (Result(a) == Failed(Terminal) || (Transient(a) && a.late))
        && err.Backend? && Result(a) == Failed(err.err)
  }

  // -------------------------------------------------------------------- the loop

  /** What the loop sees of an attempt: that the closure failed, or how the commit ended. */
  datatype Ending = Ending(fnFails: bool, err: Option<CommitError>, late: bool)

  function EndingOf(a: Attempt): Ending {
    Ending(a.fnFails, ToError(Result(a)), a.late)
  }

  predicate EndsTransient(e: Ending) {
    e.err.Some? && Retryable(e.err.value)
  }

  predicate AsksAgain(e: Ending) {
    !e.fnFails && (e.err == Some(CasConflict) || (EndsTransient(e) && !e.late))
  }

  function ConflictEnds(ends: nat -> Ending, n: nat): nat {
    if n == 0 then 0 else ConflictEnds(ends, n - 1) + (if ends(n - 1).err == Some(CasConflict) then 1 else 0)
  }

  function TransientEnds(ends: nat -> Ending, n: nat): nat {
    if n == 0 then 0 else TransientEnds(ends, n - 1) + (if EndsTransient(ends(n - 1)) then 1 else 0)
  }

  /** The loop's own reason to stop. */
  ghost predicate Stops(out: Outcome, e: Ending, conflicts: nat, retries: nat, casMax: nat, retryMax: nat) {
    match out
    case FnFailed => e.fnFails
    case Success => !e.fnFails && e.err.None?
    case ConflictsExhausted => !e.fnFails && e.err == Some(CasConflict) && conflicts + 1 == casMax
    case RetriesExhausted(err) => !e.fnFails && e.err == Some(err) && Retryable(err) && !e.late && retries == retryMax
    case CommitFailed(err) => !e.fnFails && e.err == Some(err) && err != CasConflict && (Retryable(err) ==> e.late)
  }

  method RetryLoop(ends: nat -> Ending, casMax: nat, retryMax: nat) returns (out: Outcome, calls: nat)
    ensures calls <= casMax + retryMax && (calls == 0 <==> casMax == 0)
    ensures calls == 0 ==> out == ConflictsExhausted
    ensures forall i | 0 <= i < calls - 1 :: AsksAgain(ends(i))
    ensures calls > 0 ==>
      && ConflictEnds(ends, calls - 1) < casMax && TransientEnds(ends, calls - 1) <= retryMax
      && Stops(out, ends(calls - 1), ConflictEnds(ends, calls - 1), TransientEnds(ends, calls - 1), casMax, retryMax)
  {
    var attempt: int := 0;
    var retryableRuns := 0;
    calls := 0;
    while attempt < casMax
      invariant 0 <= attempt <= casMax && retryableRuns <= retryMax
      invariant attempt == ConflictEnds(ends, calls) && retryableRuns == TransientEnds(ends, calls)
      invariant calls == attempt + retryableRuns
      invariant casMax == 0 ==> calls == 0
      invariant forall i | 0 <= i < calls :: AsksAgain(ends(i))
      invariant attempt == casMax && calls > 0 ==>
                  ends(calls - 1).err == Some(CasConflict) && ConflictEnds(ends, calls - 1) < casMax
      decreases casMax - attempt, retryMax - retryableRuns
    {
      var e := ends(calls);
      calls := calls + 1;
      if e.fnFails { return FnFailed, calls; }
      if e.err.None? { return Success, calls; }
      if Retryable(e.err.value) {
        if e.late { return CommitFailed(e.err.value), calls; }
        if retryableRuns >= retryMax { return RetriesExhausted(e.err.value), calls; }
        retryableRuns := retryableRuns + 1;
        attempt := attempt - 1; // a transient window does not consume the conflict budget
        attempt := attempt + 1; // the loop's own increment
        continue;
      }
      if e.err.value != CasConflict { return CommitFailed(e.err.value), calls; }
      attempt := attempt + 1;
    }
    out := ConflictsExhausted;
  }

  lemma {:induction false} CountsAgree(attempts: nat -> Attempt, ends: nat -> Ending, n: nat)
    requires forall i: nat | i < n :: ends(i) == EndingOf(attempts(i))
    ensures ConflictEnds(ends, n) == Conflicts(attempts, n) && TransientEnds(ends, n) == Transients(attempts, n)
  {
    if n > 0 {
      CountsAgree(attempts, ends, n - 1);
      ResultIs(attempts(n - 1));
    }
  }

  lemma StopExplains(out: Outcome, attempts: nat -> Attempt, calls: nat, casMax: nat, retryMax: nat)
    requires calls > 0
    requires Stops(out, EndingOf(attempts(calls - 1)), Conflicts(attempts, calls - 1), Transients(attempts, calls - 1),
                   casMax, retryMax)
    ensures Explains(out, attempts, calls, casMax, retryMax)
  {
    ResultIs(attempts(calls - 1));
  }

  /** `Transact`. `attempts(i)` is what the i-th run of the closure and its commit would do. The loop
      ends for every such sequence, within the two budgets added. Every run before the last asked to be
      run again, and left the owner's store alone unless it ended in a retried flush. */
  method Transact(attempts: nat -> Attempt, casMax: nat, retryMax: nat)
    returns (out: Outcome, calls: nat)
    ensures calls <= casMax + retryMax
    ensures calls == 0 <==> casMax == 0
    ensures forall i | 0 <= i < calls - 1 ::
              RunsAgain(attempts(i)) && (Applied(attempts(i)) <==> RetriedFlush(attempts(i)))
    ensures calls > 0 ==> Conflicts(attempts, calls - 1) < casMax && Transients(attempts, calls - 1) <= retryMax
    ensures Explains(out, attempts, calls, casMax, retryMax)
  {
    var ends := (i: nat) => EndingOf(attempts(i));
    out, calls := RetryLoop(ends, casMax, retryMax);
    if calls > 0 {
      CountsAgree(attempts, ends, calls - 1);
      StopExplains(out, attempts, calls, casMax, retryMax);
    }
    forall i | 0 <= i < calls - 1
      ensures RunsAgain(attempts(i)) && (Applied(attempts(i)) <==> RetriedFlush(attempts(i)))
    {
      assert AsksAgain(ends(i));
      ResultIs(attempts(i));
    }
  }
}
