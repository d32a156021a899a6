/** The owner side of a CAS commit: validate a read-set against one local transaction, apply the
    write-set to it, commit, and report. At R=1 the store holds raw values; at R>1 it holds
    envelopes, a delete is a stamped tombstone and one stamp covers the whole write-set. */
module CommitCas {
  import opened Basics
  import opened Lex
  import opened Envelope
  import opened StampClock
  import opened ApplyIfNewer

  datatype ReadCheck = ExpectValue(key: Bytes, val: Bytes) | ExpectAbsent(key: Bytes)

  datatype WriteOp = Put(key: Bytes, value: Bytes) | Delete(key: Bytes)

  /** A backend failure as the retry classifier distinguishes them. */
  datatype Failure = Fenced | Unavailable | FailedPrecondition | Terminal

  datatype CasResult = Committed(underReplicated: bool) | Conflict | Failed(err: Failure)

  // ---------------------------------------------------------------- validate

  datatype ReadOut = Found(val: Bytes) | NotFound | Unreadable

  /** `casReadPayload`: at R>1 a tombstone checks as not found and a corrupt envelope as an error. */
  function ReadPayload(s: Store, k: Bytes, replicated: bool): ReadOut {
    if k !in s then NotFound
    else if !replicated then Found(s[k])
    else match Decode(s[k])
      case Corrupt => Unreadable
      case Ok(e) => if |e.payload| == 0 then NotFound else Found(e.payload)
  }

  datatype Verdict = Valid | Stale | Broken

  function Check(out: ReadOut, r: ReadCheck): Verdict {
    match out
    case Unreadable => Broken
    case NotFound => if r.ExpectAbsent? then Valid else Stale
    case Found(v) => if r.ExpectValue? && v == r.val then Valid else Stale
  }

  /** The first read-check, in order, that does not pass. */
  function Validate(s: Store, checks: seq<ReadCheck>, replicated: bool): Verdict {
    if |checks| == 0 then Valid
    else
      var v := Check(ReadPayload(s, checks[0].key, replicated), checks[0]);
      if v == Valid then Validate(s, checks[1..], replicated) else v
  }

  /** What the read-set claims about the store. */
  ghost predicate Holds(s: Store, r: ReadCheck, replicated: bool) {
    ReadPayload(s, r.key, replicated)
    == match r case ExpectValue(_, v) => Found(v) case ExpectAbsent(_) => NotFound
  }

  /** Validation passes exactly when every claim of the read-set is true of the store. */
  lemma {:induction false} ValidIffAllHold(s: Store, checks: seq<ReadCheck>, replicated: bool)
    ensures Validate(s, checks, replicated) == Valid
            <==> forall r | r in checks :: Holds(s, r, replicated)
  {
    if |checks| > 0 {
      ValidIffAllHold(s, checks[1..], replicated);
      assert forall r | r in checks :: r == checks[0] || r in checks[1..];
      assert checks[0] in checks && forall r | r in checks[1..] :: r in checks;
    }
  }

  // ------------------------------------------------------------------- apply

  function RawOne(s: Store, w: WriteOp): Store {
    match w case Put(k, v) => s[k := v] case Delete(k) => s - {k}
  }

  function RawAll(s: Store, ws: seq<WriteOp>): Store {
    if |ws| == 0 then s else RawOne(RawAll(s, ws[..|ws| - 1]), ws[|ws| - 1])
  }

  /** The envelope one write-op becomes: a delete is an empty payload, not a key removal. */
  function Seal(stamp: Stamp, w: WriteOp): Write {
    Write(w.key, Encode(Envelope(stamp, match w case Put(_, v) => v case Delete(_) => [])))
  }

  function SealAll(stamp: Stamp, ws: seq<WriteOp>): (q: seq<Write>)
    ensures |q| == |ws| && forall i | 0 <= i < |ws| :: q[i] == Seal(stamp, ws[i])
  {
    seq(|ws|, i requires 0 <= i < |ws| => Seal(stamp, ws[i]))
  }

  /** The owner's own apply overwrites; it does not compare stamps. */
  function Overwrite(s: Store, ws: seq<Write>): Store {
    if |ws| == 0 then s else Overwrite(s, ws[..|ws| - 1])[ws[|ws| - 1].key := ws[|ws| - 1].env]
  }

  // ---------------------------------------------------------- stamp ratchet

  function ObserveKeys(last: U64, s: Store, keys: seq<Bytes>): U64 {
    if |keys| == 0 then last
    else Observed(ObserveKeys(last, s, keys[..|keys| - 1]), StoredTs(s, keys[|keys| - 1]))
  }

  function ReadKeys(checks: seq<ReadCheck>): (ks: seq<Bytes>)
    ensures |ks| == |checks| && forall i | 0 <= i < |checks| :: ks[i] == checks[i].key
  {
    seq(|checks|, i requires 0 <= i < |checks| => checks[i].key)
  }

  /** The write-set keys no read-check decoded. */
  function BlindKeys(checks: seq<ReadCheck>, ws: seq<WriteOp>): seq<Bytes> {
    if |ws| == 0 then []
    else
      var front, k := BlindKeys(checks, ws[..|ws| - 1]), ws[|ws| - 1].key;
      if k in ReadKeys(checks) || k in front then front else front + [k]
  }

  /** The clock mark the commit stamp is drawn from. */
  function Mark(last: U64, s: Store, checks: seq<ReadCheck>, ws: seq<WriteOp>): U64 {
    ObserveKeys(ObserveKeys(last, s, ReadKeys(checks)), s, BlindKeys(checks, ws))
  }

  function CommitStamp(last: U64, s: Store, checks: seq<ReadCheck>, ws: seq<WriteOp>, wall: U64, node: Bytes): Stamp {
    Stamp(NextStamp(Mark(last, s, checks, ws), wall), node)
  }

  lemma {:induction false} ObserveKeysCovers(last: U64, s: Store, keys: seq<Bytes>)
    ensures ObserveKeys(last, s, keys) >= last
    ensures forall k | k in keys :: ObserveKeys(last, s, keys) >= StoredTs(s, k)
  {
    if |keys| > 0 {
      ObserveKeysCovers(last, s, keys[..|keys| - 1]);
      assert keys == keys[..|keys| - 1] + [keys[|keys| - 1]];
    }
  }

  lemma {:induction false} BlindKeysComplete(checks: seq<ReadCheck>, ws: seq<WriteOp>, w: WriteOp)
    requires w in ws
    ensures w.key in ReadKeys(checks) || w.key in BlindKeys(checks, ws)
  {
    if w != ws[|ws| - 1] {
      assert w in ws[..|ws| - 1];
      BlindKeysComplete(checks, ws[..|ws| - 1], w);
    }
  }

  /** The commit stamp strictly beats the stored stamp of every key the commit writes, read or
      blind, unless the stored timestamp sits at the uint64 ceiling and its node id is not below the
      committer's: there, and only there, the commit loses the compare it must win. */
  lemma CommitStampDominatesIff(last: U64, s: Store, checks: seq<ReadCheck>, ws: seq<WriteOp>, wall: U64, node: Bytes,
                                w: WriteOp)
    requires w in ws && w.key in s
    ensures var stored := StampOf(s[w.key]);
            Greater(CommitStamp(last, s, checks, ws, wall, node), stored)
            <==> stored.ts < MAX_U64 || Less(stored.node, node)
  {
    var m0 := ObserveKeys(last, s, ReadKeys(checks));
    ObserveKeysCovers(last, s, ReadKeys(checks));
    ObserveKeysCovers(m0, s, BlindKeys(checks, ws));
    BlindKeysComplete(checks, ws, w);
    NextStampDominatesIff(Mark(last, s, checks, ws), wall);
  }

  // --------------------------------------------------------- the owner commit

  /** Where the owner's transaction fails, if anywhere: at begin, at the Get of a read-check, at the Get
      of a blind key, at a write, at commit. */
  datatype Trouble =
    | Smooth
    | AtBegin(err: Failure)
    | AtRead(i: nat, err: Failure)
    | AtBlind(i: nat, err: Failure)
    | AtWrite(err: Failure)
    | AtCommit(err: Failure)

  /** What follows the local commit at R>1: the fan-out reached W, or it missed W and the owner
      flushed, or it missed W and the flush failed. */
  datatype After = ReachedW | MissedW | FlushFailed(err: Failure)

  /** A fence on a mounted unit's transaction is recoded to the acquiring-window refusal; on a bare
      backend's transaction it stays what it is. */
  function Recode(err: Failure, mounted: bool): Failure {
    if err == Fenced && mounted then Unavailable else err
  }

  /** None of the keys holds a corrupt header. */
  predicate Readable(s: Store, keys: seq<Bytes>) {
    forall k | k in keys && k in s :: Decode(s[k]).Ok?
  }

  /** How the look at the blind keys ends. */
  datatype BlindLook = AllSeen | BadHeader | GetFailed

  function LookAtBlind(s: Store, keys: seq<Bytes>, t: Trouble): BlindLook {
    var seen := if t.AtBlind? && t.i < |keys| then keys[..t.i] else keys;
    if !Readable(s, seen) then BadHeader else if |seen| < |keys| then GetFailed else AllSeen
  }

  datatype Gate = Pass | Refuse(r: CasResult)

  /** Why, if at all, the commit is refused before the owner-local commit. */
  function PreCommit(s: Store, checks: seq<ReadCheck>, ws: seq<WriteOp>, replicated: bool, mounted: bool, t: Trouble)
    : Gate
  {
    if t.AtBegin? then Refuse(Failed(t.err))
    else
      var seen := if t.AtRead? && t.i < |checks| then checks[..t.i] else checks;
      match Validate(s, seen, replicated)
      case Stale => Refuse(Conflict)
      case Broken => Refuse(Failed(Terminal))
      case Valid =>
        if seen != checks then Refuse(Failed(Recode(t.err, mounted)))
        else
          var blind := if replicated then LookAtBlind(s, BlindKeys(checks, ws), t) else AllSeen;
          if blind == BadHeader then Refuse(Failed(Terminal))
          else if blind == GetFailed then Refuse(Failed(Recode(t.err, mounted)))
          else if t.AtWrite? || t.AtCommit? then Refuse(Failed(Recode(t.err, mounted)))
          else Pass
  }

  /** The result once the owner-local commit is in. */
  function PostCommit(replicated: bool, ws: seq<WriteOp>, after: After): CasResult {
    if !replicated || |ws| == 0 then Committed(false)
    else match after
      case ReachedW => Committed(false)
      case MissedW => Committed(true)
      case FlushFailed(err) => Failed(err)
  }

  /** The draw an owner commit makes: its node's clock mark and wall reading. */
  datatype Draw = Draw(last: U64, wall: U64, node: Bytes)

  function CommittedStore(s: Store, last: U64, checks: seq<ReadCheck>, ws: seq<WriteOp>, replicated: bool, wall: U64,
                          node: Bytes)
    : Store
  {
    if replicated then Overwrite(s, SealAll(CommitStamp(last, s, checks, ws, wall, node), ws))
    else RawAll(s, ws)
  }

  // ----------------------------------------------------- what the gate decides

  /** How many read-checks are reached before the transaction fails. */
  function Reached(checks: seq<ReadCheck>, t: Trouble): nat {
    if t.AtRead? && t.i < |checks| then t.i else |checks|
  }

  /** The transaction fails at some point of this commit. */
  predicate Breaks(checks: seq<ReadCheck>, ws: seq<WriteOp>, replicated: bool, t: Trouble) {
    || t.AtBegin? || t.AtWrite? || t.AtCommit?
    || (t.AtRead? && t.i < |checks|)
    || (replicated && t.AtBlind? && t.i < |BlindKeys(checks, ws)|)
  }

  /** The first check that does not hold is this one. */
  ghost predicate FailsFirst(s: Store, checks: seq<ReadCheck>, replicated: bool, i: nat) {
    i < |checks| && !Holds(s, checks[i], replicated) && forall j | 0 <= j < i :: Holds(s, checks[j], replicated)
  }

  /** A check that does not hold is a mismatch when its key can be read. */
  lemma CheckIs(s: Store, r: ReadCheck, replicated: bool)
    ensures
      var v := Check(ReadPayload(s, r.key, replicated), r);
      && (v == Valid <==> Holds(s, r, replicated))
      && (v == Broken <==> ReadPayload(s, r.key, replicated) == Unreadable)
  {
  }

  lemma FailsFirstTail(s: Store, checks: seq<ReadCheck>, replicated: bool, i: nat)
    requires checks != [] && Holds(s, checks[0], replicated)
    ensures FailsFirst(s, checks[1..], replicated, i) <==> FailsFirst(s, checks, replicated, i + 1)
  {
    var rest := checks[1..];
    assert forall j | 0 <= j < |rest| :: rest[j] == checks[j + 1];
    if FailsFirst(s, checks, replicated, i + 1) {
      forall j | 0 <= j < i ensures Holds(s, rest[j], replicated) { assert rest[j] == checks[j + 1]; }
    }
    if FailsFirst(s, rest, replicated, i) {
      forall j | 0 <= j < i + 1 ensures Holds(s, checks[j], replicated) {
        if j > 0 { assert rest[j - 1] == checks[j]; }
      }
    }
  }

  /** Validation is decided by the first check that does not hold. */
  lemma {:induction false} ValidateIsFirstFailure(s: Store, checks: seq<ReadCheck>, replicated: bool, i: nat)
    requires FailsFirst(s, checks, replicated, i)
    ensures Validate(s, checks, replicated)
            == if ReadPayload(s, checks[i].key, replicated) == Unreadable then Broken else Stale
  {
    CheckIs(s, checks[0], replicated);
    if i > 0 {
      FailsFirstTail(s, checks, replicated, i - 1);
      ValidateIsFirstFailure(s, checks[1..], replicated, i - 1);
    }
  }

  lemma {:induction false} SomeFailsFirst(s: Store, checks: seq<ReadCheck>, replicated: bool) returns (i: nat)
    requires Validate(s, checks, replicated) != Valid
    ensures FailsFirst(s, checks, replicated, i)
  {
    CheckIs(s, checks[0], replicated);
    if Holds(s, checks[0], replicated) {
      i := SomeFailsFirst(s, checks[1..], replicated);
      FailsFirstTail(s, checks, replicated, i);
      i := i + 1;
    } else {
      i := 0;
    }
  }

  /** No lost update: a commit passes exactly when every read-check is true of the store, the blind keys
      can be read where they are looked at, and the transaction fails nowhere. */
  lemma PassesIff(s: Store, checks: seq<ReadCheck>, ws: seq<WriteOp>, replicated: bool, mounted: bool, t: Trouble)
    ensures PreCommit(s, checks, ws, replicated, mounted, t).Pass? <==>
      && (forall r | r in checks :: Holds(s, r, replicated))
      && (replicated ==> Readable(s, BlindKeys(checks, ws)))
      && !Breaks(checks, ws, replicated, t)
  {
    ValidIffAllHold(s, checks, replicated);
  }

  /** It is refused as a conflict exactly when the first check that does not hold is reached before any
      failure and is a mismatch, not a corrupt value. */
  lemma ConflictsIff(s: Store, checks: seq<ReadCheck>, ws: seq<WriteOp>, replicated: bool, mounted: bool, t: Trouble)
    ensures PreCommit(s, checks, ws, replicated, mounted, t) == Refuse(Conflict) <==>
      && !t.AtBegin?
      && exists i: nat | i < Reached(checks, t) ::
           FailsFirst(s, checks, replicated, i) && ReadPayload(s, checks[i].key, replicated) != Unreadable
  {
    var seen := checks[..Reached(checks, t)];
    assert checks[..|checks|] == checks;
    forall i: nat | i < |seen|
      ensures FailsFirst(s, seen, replicated, i) <==> FailsFirst(s, checks, replicated, i)
    {
      assert forall j | 0 <= j <= i :: seen[j] == checks[j];
    }
    if Validate(s, seen, replicated) != Valid {
      var i := SomeFailsFirst(s, seen, replicated);
      ValidateIsFirstFailure(s, seen, replicated, i);
      assert FailsFirst(s, checks, replicated, i);
    }
    if i: nat :| i < |seen| && FailsFirst(s, checks, replicated, i)
                 && ReadPayload(s, checks[i].key, replicated) != Unreadable {
      ValidateIsFirstFailure(s, seen, replicated, i);
    }
  }

  /** Which error a failing transaction reports when its checks hold and its blind keys can be read: the
      one it failed with, except that a fence met after the begin on a mounted unit reads as the
      acquiring window. */
  lemma BreaksWith(s: Store, checks: seq<ReadCheck>, ws: seq<WriteOp>, replicated: bool, mounted: bool, t: Trouble)
    requires Breaks(checks, ws, replicated, t)
    requires forall r | r in checks :: Holds(s, r, replicated)
    requires replicated ==> Readable(s, BlindKeys(checks, ws))
    ensures PreCommit(s, checks, ws, replicated, mounted, t)
            == Refuse(Failed(if t.err == Fenced && mounted && !t.AtBegin? then Unavailable else t.err))
  {
    ValidIffAllHold(s, checks, replicated);
    ValidIffAllHold(s, checks[..Reached(checks, t)], replicated);
    var keys := BlindKeys(checks, ws);
    if t.AtBlind? && t.i < |keys| { assert forall k | k in keys[..t.i] :: k in keys; }
  }

  /** `CommitCASApply`, one critical section under the commit lock followed by the fan-out outcome.
      A refused commit leaves the store alone; a passed one applies the whole write-set, whatever the
      fan-out then reports. */
  method CommitCasApply(unit: UnitStore, clock: Clock, node: Bytes, replicated: bool, mounted: bool, wall: U64,
                        checks: seq<ReadCheck>, writes: seq<WriteOp>, t: Trouble, after: After)
    returns (r: CasResult, batch: seq<Write>)
    modifies unit, clock
    ensures var g := PreCommit(old(unit.data), checks, writes, replicated, mounted, t);
            && r == (if g.Pass? then PostCommit(replicated, writes, after) else g.r)
            && unit.data == (
                 if g.Pass?
                 then CommittedStore(old(unit.data), old(clock.last), checks, writes, replicated, wall, node)
                 else old(unit.data))
            && (g.Pass? && replicated ==>
                  batch == SealAll(CommitStamp(old(clock.last), old(unit.data), checks, writes, wall, node), writes)
                  && clock.last == NextStamp(Mark(old(clock.last), old(unit.data), checks, writes), wall))
    ensures old(clock.last) <= clock.last
            <= NextStamp(Mark(old(clock.last), old(unit.data), checks, writes), wall)
    ensures !replicated ==> clock.last == old(clock.last)
  {
    batch := [];
    ObserveKeysCovers(clock.last, unit.data, ReadKeys(checks));
    MarksOnTheWay(clock.last, unit.data, checks, writes, wall);
    if t.AtBegin? { return Failed(t.err), []; }
    var verdict := ValidateReads(unit.data, clock, checks, replicated, t);
    if verdict == Stale { return Conflict, []; }
    if verdict == Broken { return Failed(Terminal), []; }
    if t.AtRead? && t.i < |checks| { return Failed(Recode(t.err, mounted)), []; }
    var tx := unit.data;
    if replicated {
      var blind := ObserveBlindWriteStamps(tx, clock, checks, writes, t);
      if blind == BadHeader { return Failed(Terminal), []; }
      if blind == GetFailed { return Failed(Recode(t.err, mounted)), []; }
      var ts := clock.Next(wall);
      NextStampDominatesIff(Mark(old(clock.last), tx, checks, writes), wall);
      batch := SealAll(Stamp(ts, node), writes);
      tx := ApplySealed(tx, batch);
    } else {
      tx := ApplyRaw(tx, writes);
    }
    if t.AtWrite? || t.AtCommit? { return Failed(Recode(t.err, mounted)), batch; }
    unit.data := tx;
    r := PostCommit(replicated, writes, after);
  }

  /** The write loop at R>1: one Put per sealed entry. */
  method ApplySealed(before: Store, batch: seq<Write>) returns (tx: Store)
    ensures tx == Overwrite(before, batch)
  {
    tx := before;
    for i := 0 to |batch|
      invariant tx == Overwrite(before, batch[..i])
    {
      assert batch[..i + 1][..i] == batch[..i];
      tx := tx[batch[i].key := batch[i].env];
    }
    assert batch[..|batch|] == batch;
  }

  /** The write loop at R=1: raw Puts and Deletes. */
  method ApplyRaw(before: Store, writes: seq<WriteOp>) returns (tx: Store)
    ensures tx == RawAll(before, writes)
  {
    tx := before;
    for i := 0 to |writes|
      invariant tx == RawAll(before, writes[..i])
    {
      assert writes[..i + 1][..i] == writes[..i];
      match writes[i] {
        case Put(k, v) => tx := tx[k := v];
        case Delete(k) => tx := tx - {k};
      }
    }
    assert writes[..|writes|] == writes;
  }

  lemma ValidateStep(s: Store, checks: seq<ReadCheck>, replicated: bool, i: nat, n: nat)
    requires i < n <= |checks|
    ensures
      var v := Check(ReadPayload(s, checks[i].key, replicated), checks[i]);
      Validate(s, checks[i..n], replicated) == if v == Valid then Validate(s, checks[i + 1..n], replicated) else v
  {
    assert checks[i..n][0] == checks[i] && checks[i..n][1..] == checks[i + 1..n];
  }

  lemma {:induction false} ObserveKeysGrow(last: U64, s: Store, keys: seq<Bytes>, i: nat)
    requires i <= |keys|
    ensures ObserveKeys(last, s, keys[..i]) <= ObserveKeys(last, s, keys)
    decreases |keys| - i
  {
    if i == |keys| {
      assert keys[..i] == keys;
    } else {
      assert keys[..i + 1] == keys[..i] + [keys[i]];
      ObserveKeysStep(last, s, keys[..i], keys[i]);
      ObserveKeysGrow(last, s, keys, i + 1);
    }
  }

  /** No mark on the way to the commit stamp is above it. */
  lemma MarksOnTheWay(last: U64, s: Store, checks: seq<ReadCheck>, ws: seq<WriteOp>, wall: U64)
    ensures ObserveKeys(last, s, ReadKeys(checks)) <= Mark(last, s, checks, ws)
            <= NextStamp(Mark(last, s, checks, ws), wall)
  {
    ObserveKeysCovers(ObserveKeys(last, s, ReadKeys(checks)), s, BlindKeys(checks, ws));
    NextStampDominatesIff(Mark(last, s, checks, ws), wall);
  }

  lemma ObserveReadStep(last: U64, s: Store, checks: seq<ReadCheck>, i: nat)
    requires i < |checks|
    ensures ObserveKeys(last, s, ReadKeys(checks)[..i + 1])
            == Observed(ObserveKeys(last, s, ReadKeys(checks)[..i]), StoredTs(s, checks[i].key))
  {
    assert ReadKeys(checks)[..i + 1] == ReadKeys(checks)[..i] + [checks[i].key];
    ObserveKeysStep(last, s, ReadKeys(checks)[..i], checks[i].key);
  }

  /** What looking at one more read-check leads to. */
  lemma ReadStep(last: U64, s: Store, checks: seq<ReadCheck>, replicated: bool, i: nat, n: nat)
    requires i < n <= |checks|
    ensures
      var v := Check(ReadPayload(s, checks[i].key, replicated), checks[i]);
      Validate(s, checks[i..n], replicated) == if v == Valid then Validate(s, checks[i + 1..n], replicated) else v
    ensures
      var m, m' := ObserveKeys(last, s, ReadKeys(checks)[..i]), ObserveKeys(last, s, ReadKeys(checks)[..i + 1]);
      m' == Observed(m, StoredTs(s, checks[i].key)) && m <= m' <= ObserveKeys(last, s, ReadKeys(checks))
  {
    ValidateStep(s, checks, replicated, i, n);
    ObserveReadStep(last, s, checks, i);
    ObserveKeysGrow(last, s, ReadKeys(checks), i + 1);
  }

  /** The validate loop. At R>1 it observes the stamp of every value it decodes. */
  method ValidateReads(tx: Store, clock: Clock, checks: seq<ReadCheck>, replicated: bool, t: Trouble)
    returns (v: Verdict)
    modifies clock
    ensures v == Validate(tx, if t.AtRead? && t.i < |checks| then checks[..t.i] else checks, replicated)
    ensures old(clock.last) <= clock.last <= ObserveKeys(old(clock.last), tx, ReadKeys(checks))
    ensures v == Valid && replicated && !(t.AtRead? && t.i < |checks|)
            ==> clock.last == ObserveKeys(old(clock.last), tx, ReadKeys(checks))
    ensures !replicated ==> clock.last == old(clock.last)
  {
    ghost var start := clock.last;
    var n := if t.AtRead? && t.i < |checks| then t.i else |checks|;
    ObserveKeysCovers(start, tx, ReadKeys(checks));
    assert checks[..n] == checks[0..n] && (n == |checks| ==> checks[..n] == checks);
    for i := 0 to n
      invariant Validate(tx, checks[..n], replicated) == Validate(tx, checks[i..n], replicated)
      invariant start <= clock.last <= ObserveKeys(start, tx, ReadKeys(checks))
      invariant clock.last == if replicated then ObserveKeys(start, tx, ReadKeys(checks)[..i]) else start
    {
      ReadStep(start, tx, checks, replicated, i, n);
      v := Check(ReadPayload(tx, checks[i].key, replicated), checks[i]);
      if v == Broken { return; }
      if replicated { clock.Observe(StoredTs(tx, checks[i].key)); }
      if v != Valid { return; }
    }
    assert ReadKeys(checks)[..|checks|] == ReadKeys(checks);
    v := Valid;
  }

  lemma BlindKeysStep(checks: seq<ReadCheck>, ws: seq<WriteOp>, i: nat)
    requires i < |ws|
    ensures
      var front, k := BlindKeys(checks, ws[..i]), ws[i].key;
      BlindKeys(checks, ws[..i + 1]) == if k in ReadKeys(checks) || k in front then front else front + [k]
  {
    assert ws[..i + 1][..i] == ws[..i];
  }

  lemma {:induction false} BlindKeysGrow(checks: seq<ReadCheck>, ws: seq<WriteOp>, n: nat)
    requires n <= |ws|
    ensures BlindKeys(checks, ws[..n]) <= BlindKeys(checks, ws)
    decreases |ws| - n
  {
    if n == |ws| {
      assert ws[..n] == ws;
    } else {
      BlindKeysStep(checks, ws, n);
      BlindKeysGrow(checks, ws, n + 1);
    }
  }

  lemma ObserveKeysStep(last: U64, s: Store, keys: seq<Bytes>, k: Bytes)
    ensures ObserveKeys(last, s, keys + [k]) == Observed(ObserveKeys(last, s, keys), StoredTs(s, k))
  {
    assert (keys + [k])[..|keys|] == keys;
  }

  lemma ReadableStep(s: Store, keys: seq<Bytes>, k: Bytes)
    ensures Readable(s, keys + [k]) <==> Readable(s, keys) && (k in s ==> Decode(s[k]).Ok?)
  {
    assert forall j | j in keys :: j in keys + [k];
    assert k in keys + [k];
  }

  lemma BadHeaderStops(s: Store, part: seq<Bytes>, keys: seq<Bytes>, t: Trouble)
    requires part <= keys && !Readable(s, part) && (t.AtBlind? ==> |part| <= t.i)
    ensures LookAtBlind(s, keys, t) == BadHeader
  {
    var seen := if t.AtBlind? && t.i < |keys| then keys[..t.i] else keys;
    assert part <= seen;
    assert forall k | k in part :: k in seen;
  }

  lemma GetFailureStops(s: Store, part: seq<Bytes>, keys: seq<Bytes>, t: Trouble)
    requires part < keys && Readable(s, part) && t.AtBlind? && t.i == |part|
    ensures LookAtBlind(s, keys, t) == GetFailed
  {
    assert keys[..t.i] == part;
  }

  /** What looking at one more blind key leads to. */
  lemma BlindStep(last: U64, s: Store, checks: seq<ReadCheck>, ws: seq<WriteOp>, i: nat, part: seq<Bytes>, t: Trouble)
    requires i < |ws| && part == BlindKeys(checks, ws[..i]) && Readable(s, part) && (t.AtBlind? ==> |part| <= t.i)
    requires BlindKeys(checks, ws[..i + 1]) == part + [ws[i].key]
    ensures
      var k, look := ws[i].key, LookAtBlind(s, BlindKeys(checks, ws), t);
      if t.AtBlind? && t.i == |part| then look == GetFailed
      else if k in s && Decode(s[k]).Corrupt? then look == BadHeader
      else
        && Readable(s, part + [k])
        && ObserveKeys(last, s, part + [k]) == Observed(ObserveKeys(last, s, part), StoredTs(s, k))
    ensures ObserveKeys(last, s, part) <= ObserveKeys(last, s, BlindKeys(checks, ws))
  {
    var k, keys := ws[i].key, BlindKeys(checks, ws);
    BlindKeysGrow(checks, ws, i + 1);
    assert keys[..|part|] == part;
    ObserveKeysGrow(last, s, keys, |part|);
    if t.AtBlind? && t.i == |part| {
      GetFailureStops(s, part, keys, t);
    } else {
      ReadableStep(s, part, k);
      ObserveKeysStep(last, s, part, k);
      if k in s && Decode(s[k]).Corrupt? { BadHeaderStops(s, part + [k], keys, t); }
    }
  }

  /** One blind key's stored header; false when it is corrupt. */
  method ObserveHeader(tx: Store, clock: Clock, k: Bytes) returns (ok: bool)
    modifies clock
    ensures ok <==> (k in tx ==> Decode(tx[k]).Ok?)
    ensures clock.last == if ok then Observed(old(clock.last), StoredTs(tx, k)) else old(clock.last)
  {
    if k !in tx { return true; }
    if Decode(tx[k]).Corrupt? { return false; }
    clock.Observe(StampOf(tx[k]).ts);
    ok := true;
  }

  /** Ratchet the clock with the stored stamp of every blind key, stopping at the first corrupt header
      or failed Get. */
  method ObserveBlindWriteStamps(tx: Store, clock: Clock, checks: seq<ReadCheck>, writes: seq<WriteOp>, t: Trouble)
    returns (look: BlindLook)
    modifies clock
    ensures look == LookAtBlind(tx, BlindKeys(checks, writes), t)
    ensures look == AllSeen ==> clock.last == ObserveKeys(old(clock.last), tx, BlindKeys(checks, writes))
    ensures old(clock.last) <= clock.last <= ObserveKeys(old(clock.last), tx, BlindKeys(checks, writes))
  {
    ghost var start := clock.last;
    var seen: seq<Bytes> := [];
    for i := 0 to |writes|
      invariant seen == BlindKeys(checks, writes[..i])
      invariant Readable(tx, seen) && (t.AtBlind? ==> |seen| <= t.i)
      invariant start <= clock.last == ObserveKeys(start, tx, seen)
    {
      var k := writes[i].key;
      BlindKeysStep(checks, writes, i);
      if k in ReadKeys(checks) || k in seen { continue; }
      BlindStep(start, tx, checks, writes, i, seen, t);
      if t.AtBlind? && t.i == |seen| { return GetFailed; }
      var ok := ObserveHeader(tx, clock, k);
      if !ok { return BadHeader; }
      seen := seen + [k];
    }
    assert writes[..|writes|] == writes;
    look := AllSeen;
  }
}
