/** What a CAS commit over envelopes means: it refines the raw-value commit, and a replica that
    applies the owner's batch ends with the owner's values. */
module CasRefinement {
  import opened Basics
  import opened Envelope
  import opened StampClock
  import opened ApplyIfNewer
  import opened CommitCas

  ghost predicate DistinctKeys(ws: seq<WriteOp>) {
    forall i, j | 0 <= i < j < |ws| :: ws[i].key != ws[j].key
  }

  ghost predicate Writes(ws: seq<WriteOp>, k: Bytes) {
    exists w | w in ws :: w.key == k
  }

  // ------------------------------------------------------- owner and replica

  lemma SealCarriesStamp(stamp: Stamp, w: WriteOp)
    requires |stamp.node| < 65536
    ensures Decodable(Seal(stamp, w)) && StampOf(Seal(stamp, w).env) == stamp
    ensures Decode(Seal(stamp, w).env).env.payload == (match w case Put(_, v) => v case Delete(_) => [])
  {
    RoundTripIff(Envelope(stamp, match w case Put(_, v) => v case Delete(_) => []));
  }

  lemma {:induction false} OverwriteAt(a: Store, b: Store, q: seq<Write>, k: Bytes)
    ensures (exists w | w in q :: w.key == k) ==>
              k in Overwrite(a, q) && k in Overwrite(b, q) && Overwrite(a, q)[k] == Overwrite(b, q)[k]
    ensures !(exists w | w in q :: w.key == k) ==>
              (k in Overwrite(a, q) <==> k in a) && (k in a ==> Overwrite(a, q)[k] == a[k])
  {
    if |q| > 0 {
      var front, last := q[..|q| - 1], q[|q| - 1];
      OverwriteAt(a, b, front, k);
      assert q == front + [last];
      assert last in q;
      if w :| w in front && w.key == k { assert w in q; }
    }
  }

  /** Against strictly older stamps and distinct keys, comparing and overwriting are the same. */
  lemma {:induction false} NewerEntriesOverwrite(replica: Store, q: seq<Write>)
    requires forall i, j | 0 <= i < j < |q| :: q[i].key != q[j].key
    requires forall w | w in q && w.key in replica :: Greater(StampOf(w.env), StampOf(replica[w.key]))
    ensures ApplyAll(replica, q) == Overwrite(replica, q)
  {
    if |q| > 0 {
      var front, last := q[..|q| - 1], q[|q| - 1];
      assert forall w | w in front :: w in q;
      NewerEntriesOverwrite(replica, front);
      OverwriteAt(replica, replica, front, last.key);
      assert last in q;
    }
  }

  lemma OlderReplicaOverwrites(replica: Store, stamp: Stamp, ws: seq<WriteOp>)
    requires |stamp.node| < 65536 && DistinctKeys(ws)
    requires forall w | w in ws && w.key in replica :: Greater(stamp, StampOf(replica[w.key]))
    ensures ApplyAll(replica, SealAll(stamp, ws)) == Overwrite(replica, SealAll(stamp, ws))
  {
    var q := SealAll(stamp, ws);
    forall w | w in q && w.key in replica ensures Greater(StampOf(w.env), StampOf(replica[w.key])) {
      var i :| 0 <= i < |q| && q[i] == w;
      SealCarriesStamp(stamp, ws[i]);
      assert ws[i] in ws;
    }
    NewerEntriesOverwrite(replica, q);
  }

  lemma SealAllKeys(stamp: Stamp, ws: seq<WriteOp>, k: Bytes)
    ensures (exists w | w in SealAll(stamp, ws) :: w.key == k) <==> Writes(ws, k)
  {
    var q := SealAll(stamp, ws);
    if Writes(ws, k) {
      var w :| w in ws && w.key == k;
      var i :| 0 <= i < |ws| && ws[i] == w;
      assert q[i] in q && q[i].key == k;
    }
    if w :| w in q && w.key == k {
      var i :| 0 <= i < |q| && q[i] == w;
      assert ws[i] in ws;
    }
  }

  /** The fan-out delivers the commit: a replica whose stored stamps on the written keys are all
      older accepts the batch, ends with the owner's bytes on every written key, and keeps every
      other key. */
  lemma ReplicaEndsAsOwner(owner: Store, replica: Store, stamp: Stamp, ws: seq<WriteOp>, k: Bytes)
    requires |stamp.node| < 65536 && DistinctKeys(ws)
    requires forall w | w in ws && w.key in replica :: Greater(stamp, StampOf(replica[w.key]))
    ensures AllDecodable(SealAll(stamp, ws))
    ensures var o, r := Overwrite(owner, SealAll(stamp, ws)), ApplyBatch(replica, SealAll(stamp, ws));
            && (Writes(ws, k) ==> k in o && k in r && o[k] == r[k])
            && (!Writes(ws, k) ==> (k in r <==> k in replica) && (k in r ==> r[k] == replica[k]))
  {
    var q := SealAll(stamp, ws);
    forall i | 0 <= i < |ws| ensures Decodable(q[i]) { SealCarriesStamp(stamp, ws[i]); }
    OlderReplicaOverwrites(replica, stamp, ws);
    OverwriteAt(owner, replica, q, k);
    OverwriteAt(replica, replica, q, k);
    SealAllKeys(stamp, ws, k);
  }

  // ------------------------------------------------------------- refinement

  /** No stored envelope is corrupt. */
  ghost predicate Clean(e: Store) {
    forall k | k in e :: Decode(e[k]).Ok?
  }

  ghost predicate Live(e: Store, k: Bytes) {
    k in e && Decode(e[k]).Ok? && |Decode(e[k]).env.payload| > 0
  }

  /** The raw store an envelope store stands for: decode, and drop tombstones. */
  ghost function Abs(e: Store): Store {
    map k | k in e && Live(e, k) :: Decode(e[k]).env.payload
  }

  lemma ReadsAgree(e: Store, k: Bytes)
    requires Clean(e)
    ensures ReadPayload(e, k, true) == ReadPayload(Abs(e), k, false)
  {
  }

  lemma {:induction false} VerdictsAgree(e: Store, checks: seq<ReadCheck>)
    requires Clean(e)
    ensures Validate(e, checks, true) == Validate(Abs(e), checks, false)
  {
    if |checks| > 0 {
      ReadsAgree(e, checks[0].key);
      VerdictsAgree(e, checks[1..]);
    }
  }

  /** Clients are told to delete rather than to store an empty value; a transaction's Put does not
      enforce it. */
  ghost predicate NoEmptyPut(ws: seq<WriteOp>) {
    forall w | w in ws && w.Put? :: |w.value| > 0
  }

  lemma {:induction false} SealedWriteSetRefines(e: Store, stamp: Stamp, ws: seq<WriteOp>)
    requires Clean(e) && |stamp.node| < 65536 && NoEmptyPut(ws)
    ensures Clean(Overwrite(e, SealAll(stamp, ws)))
    ensures Abs(Overwrite(e, SealAll(stamp, ws))) == RawAll(Abs(e), ws)
  {
    if |ws| > 0 {
      var front, last := ws[..|ws| - 1], ws[|ws| - 1];
      var q := SealAll(stamp, ws);
      assert q[..|q| - 1] == SealAll(stamp, front);
      assert forall w | w in front :: w in ws;
      SealedWriteSetRefines(e, stamp, front);
      SealCarriesStamp(stamp, last);
      assert last in ws;
      var before := Overwrite(e, SealAll(stamp, front));
      OneSealedWriteRefines(before, stamp, last);
    }
  }

  lemma OneEnvelopeRefines(e: Store, k: Bytes, env: Bytes, payload: Bytes)
    requires Clean(e) && Decode(env).Ok? && Decode(env).env.payload == payload
    ensures Clean(e[k := env])
    ensures Abs(e[k := env]) == if |payload| > 0 then Abs(e)[k := payload] else Abs(e) - {k}
  {
    var e' := e[k := env];
    forall j | j != k ensures Live(e', j) <==> Live(e, j) {}
    assert Live(e', k) <==> |payload| > 0;
  }

  lemma OneSealedWriteRefines(e: Store, stamp: Stamp, w: WriteOp)
    requires Clean(e) && |stamp.node| < 65536 && (w.Put? ==> |w.value| > 0)
    ensures var e' := e[w.key := Seal(stamp, w).env];
            Clean(e') && Abs(e') == RawOne(Abs(e), w)
  {
    SealCarriesStamp(stamp, w);
    OneEnvelopeRefines(e, w.key, Seal(stamp, w).env, match w case Put(_, v) => v case Delete(_) => []);
  }

  /** The two forms of the apply agree exactly when no Put carries an empty value: an empty payload
      is a tombstone at R>1 and a value at R=1. */
  lemma WriteSetRefinesIff(e: Store, stamp: Stamp, ws: seq<WriteOp>)
    requires Clean(e) && |stamp.node| < 65536 && DistinctKeys(ws)
    ensures Abs(Overwrite(e, SealAll(stamp, ws))) == RawAll(Abs(e), ws) <==> NoEmptyPut(ws)
  {
    if NoEmptyPut(ws) {
      SealedWriteSetRefines(e, stamp, ws);
    } else {
      var w :| w in ws && w.Put? && |w.value| == 0;
      var q := SealAll(stamp, ws);
      LastWriteWins(e, Abs(e), stamp, ws, w);
      SealCarriesStamp(stamp, w);
      assert !Live(Overwrite(e, q), w.key);
    }
  }

  lemma {:induction false} LastWriteWins(e: Store, s: Store, stamp: Stamp, ws: seq<WriteOp>, w: WriteOp)
    requires DistinctKeys(ws) && w in ws && w.Put?
    ensures var o := Overwrite(e, SealAll(stamp, ws));
            w.key in o && o[w.key] == Seal(stamp, w).env
    ensures w.key in RawAll(s, ws) && RawAll(s, ws)[w.key] == w.value
  {
    var front, last := ws[..|ws| - 1], ws[|ws| - 1];
    var q := SealAll(stamp, ws);
    assert q[..|q| - 1] == SealAll(stamp, front);
    if w != last {
      assert w in front;
      LastWriteWins(e, s, stamp, front, w);
    }
  }

  // ----------------------------------------------------- sequences of commits

  /** One transaction as it reaches the owner. */
  datatype Submitted = Submitted(checks: seq<ReadCheck>, ops: seq<WriteOp>)

  /** The gate of a commit that nothing goes wrong in. */
  function GateOf(s: Store, tx: Submitted, replicated: bool): Gate {
    PreCommit(s, tx.checks, tx.ops, replicated, true, Smooth)
  }

  /** The store and the gates after a sequence of commits at R=1. */
  function RunRaw(s: Store, txs: seq<Submitted>): (Store, seq<Gate>)
    decreases |txs|
  {
    if |txs| == 0 then (s, [])
    else
      var tx, g := txs[0], GateOf(s, txs[0], false);
      var rest := RunRaw(if g.Pass? then CommittedStore(s, 0, tx.checks, tx.ops, false, 0, []) else s, txs[1..]);
      (rest.0, [g] + rest.1)
  }

  /** The same at R>1, each commit under a draw of its own. */
  function RunSealed(e: Store, txs: seq<Submitted>, draws: seq<Draw>): (Store, seq<Gate>)
    requires |draws| == |txs|
    decreases |txs|
  {
    if |txs| == 0 then (e, [])
    else
      var g := GateOf(e, txs[0], true);
      var rest := RunSealed(if g.Pass? then Sealed(e, txs[0], draws[0]) else e, txs[1..], draws[1..]);
      (rest.0, [g] + rest.1)
  }

  function Sealed(e: Store, tx: Submitted, d: Draw): Store {
    CommittedStore(e, d.last, tx.checks, tx.ops, true, d.wall, d.node)
  }

  /** The two owners decide alike. */
  lemma GatesAgree(e: Store, tx: Submitted)
    requires Clean(e)
    ensures GateOf(e, tx, true) == GateOf(Abs(e), tx, false)
  {
    VerdictsAgree(e, tx.checks);
  }

  /** Every transaction that passes at its turn puts no empty value and draws a stamp the codec can
      carry. Nothing is asked of the ones that are refused. */
  ghost predicate TakenSealWell(e: Store, txs: seq<Submitted>, draws: seq<Draw>)
    requires |draws| == |txs|
    decreases |txs|
  {
    |txs| > 0 ==>
      var taken := GateOf(e, txs[0], true).Pass?;
      && (taken ==> NoEmptyPut(txs[0].ops) && |draws[0].node| < 65536)
      && TakenSealWell(if taken then Sealed(e, txs[0], draws[0]) else e, txs[1..], draws[1..])
  }

  /** Any sequence of commits is decided the same at R>1 as at R=1, and leaves related stores, if those
      it takes seal well. */
  lemma {:induction false} SealedRunRefinesRaw(e: Store, txs: seq<Submitted>, draws: seq<Draw>)
    requires Clean(e) && |draws| == |txs| && TakenSealWell(e, txs, draws)
    ensures Clean(RunSealed(e, txs, draws).0)
    ensures Abs(RunSealed(e, txs, draws).0) == RunRaw(Abs(e), txs).0
    ensures RunSealed(e, txs, draws).1 == RunRaw(Abs(e), txs).1
    decreases |txs|
  {
    if |txs| > 0 {
      GatesAgree(e, txs[0]);
      if GateOf(e, txs[0], true).Pass? {
        var d := draws[0];
        SealedWriteSetRefines(e, CommitStamp(d.last, e, txs[0].checks, txs[0].ops, d.wall, d.node), txs[0].ops);
        SealedRunRefinesRaw(Sealed(e, txs[0], d), txs[1..], draws[1..]);
      } else {
        SealedRunRefinesRaw(e, txs[1..], draws[1..]);
      }
    }
  }
}
