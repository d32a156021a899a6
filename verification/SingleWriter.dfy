/** Whole histories of one replica position: opens, fenced replica applies, fenced owner commits and
    marker writes, by any number of handles in any order. */
module SingleWriter {
  import opened Basics
  import opened Lex
  import opened Envelope
  import opened StampClock
  import opened ApplyIfNewer
  import opened CommitCas
  import opened CasRefinement
  import opened MountTable
  import opened SharedBacking

  /** `h` is the epoch of the handle used: any handle ever opened, however stale. */
  datatype Event =
    | Open(intended: Epoch)
    | Apply(h: Epoch, batch: seq<Write>)
    | Commit(h: Epoch, checks: seq<ReadCheck>, ops: seq<WriteOp>, draw: Draw)
    | WriteMarker(e: Epoch)

  datatype History = History(p: Position, opens: seq<Epoch>)

  const NEW := History(UNTOUCHED, [])

  predicate Enabled(h: History, ev: Event) {
    match ev
    case Open(_) => true
    case Apply(e, _) => e in h.opens
    case Commit(e, _, ops, _) => e in h.opens
    case WriteMarker(_) => true
  }

  function CommitTo(s: Store, checks: seq<ReadCheck>, ops: seq<WriteOp>, d: Draw): Store {
    if PreCommit(s, checks, ops, true, true, Smooth).Pass?
    then CommittedStore(s, d.last, checks, ops, true, d.wall, d.node)
    else s
  }

  /** A fenced handle changes nothing. */
  function Next(h: History, ev: Event): History {
    match ev
    case Open(intended) =>
      var (p, at) := Acquired(h.p, intended);
      History(p, h.opens + [at])
    case Apply(e, batch) =>
      if IsFenced(h.p, e) then h else h.(p := h.p.(store := ApplyBatch(h.p.store, batch)))
    case Commit(e, checks, ops, d) =>
      if IsFenced(h.p, e) then h else h.(p := h.p.(store := CommitTo(h.p.store, checks, ops, d)))
    case WriteMarker(e) => h.(p := Marked(h.p, e))
  }

  /** A history and the events that made it. */
  datatype Run = Fresh | Then(before: Run, ev: Event)

  ghost predicate IsRun(r: Run)
    decreases r, 0
  {
    r.Then? ==> IsRun(r.before) && Enabled(Last(r.before), r.ev)
  }

  ghost function Last(r: Run): History
    requires IsRun(r)
    decreases r, 1
  {
    match r case Fresh => NEW case Then(before, ev) => Next(Last(before), ev)
  }

  // ---------------------------------------------------------------- one live writer

  ghost predicate Increasing(q: seq<Epoch>) {
    forall i, j | 0 <= i < j < |q| :: q[i] < q[j]
  }

  /** The open epochs of a position are strictly increasing, hence pairwise distinct, and the newest is
      the durable epoch. */
  lemma {:induction false} OpensIncrease(r: Run)
    requires IsRun(r)
    ensures var h := Last(r);
            Increasing(h.opens) && h.p.durable == if h.opens == [] then 0 else h.opens[|h.opens| - 1]
  {
    if r.Then? {
      OpensIncrease(r.before);
      var h := Last(r.before);
      assert h.opens == [] || forall i | 0 <= i < |h.opens| :: h.opens[i] <= h.p.durable;
    }
  }

  /** At every moment exactly one of the handles ever opened is unfenced: the newest. */
  lemma OneLiveWriter(r: Run, i: nat)
    requires IsRun(r) && i < |Last(r).opens|
    ensures !IsFenced(Last(r).p, Last(r).opens[i]) <==> i == |Last(r).opens| - 1
  {
    OpensIncrease(r);
  }

  /** The bytes of a position change only through the newest handle. */
  lemma OnlyNewestWrites(r: Run, ev: Event)
    requires IsRun(r) && Enabled(Last(r), ev) && Next(Last(r), ev).p.store != Last(r).p.store
    ensures (ev.Apply? || ev.Commit?) && ev.h == Last(r).opens[|Last(r).opens| - 1]
  {
    OpensIncrease(r);
    var i :| 0 <= i < |Last(r).opens| && Last(r).opens[i] == ev.h;
    OneLiveWriter(r, i);
  }

  /** Neither the durable epoch nor the marker ever goes back; the one moves only with an open, the other
      only with a marker write, to that write's epoch. */
  lemma {:induction false} EpochsNeverFall(r: Run, ev: Event)
    requires IsRun(r) && Enabled(Last(r), ev)
    ensures var p, q := Last(r).p, Next(Last(r), ev).p;
            && q.durable >= p.durable && (ev.Open? ==> q.durable > p.durable)
            && (!ev.Open? ==> q.durable == p.durable)
            && (p.marker.Some? ==> q.marker.Some? && q.marker.value >= p.marker.value)
            && (q.marker == p.marker || (ev.WriteMarker? && q.marker == Some(ev.e)))
            && (ev.WriteMarker? ==> q.marker.Some? && q.marker.value >= ev.e)
  {
  }

  // --------------------------------------------------------------- stamps never fall

  /** No key loses ground: what it holds is not beaten by what it held. */
  ghost predicate StampsKept(before: Store, after: Store) {
    forall k | k in before :: k in after && !Greater(StampOf(before[k]), StampOf(after[k]))
  }

  lemma StampsKeptTransitive(a: Store, b: Store, c: Store)
    requires StampsKept(a, b) && StampsKept(b, c)
    ensures StampsKept(a, c)
  {
    forall k | k in a ensures k in c && !Greater(StampOf(a[k]), StampOf(c[k])) {
      GreaterIsStrictTotalOrder(StampOf(a[k]), StampOf(b[k]), StampOf(c[k]));
      GreaterIsStrictTotalOrder(StampOf(a[k]), StampOf(c[k]), StampOf(b[k]));
      GreaterIsStrictTotalOrder(StampOf(c[k]), StampOf(b[k]), StampOf(a[k]));
      GreaterIsStrictTotalOrder(StampOf(b[k]), StampOf(c[k]), StampOf(a[k]));
    }
  }

  lemma ApplyKeepsStamps(s: Store, batch: seq<Write>)
    ensures StampsKept(s, ApplyBatch(s, batch))
  {
    forall k | k in s ensures k in ApplyBatch(s, batch) && !Greater(StampOf(s[k]), StampOf(ApplyBatch(s, batch)[k])) {
      KeyHoldsNewest(s, batch, k);
      assert s[k] in Candidates(s, batch, k);
      GreaterIsStrictTotalOrder(StampOf(s[k]), StampOf(s[k]), StampOf(s[k]));
    }
  }

  /** An overwritten key holds one of the entries for it; any other key what it held. */
  lemma {:induction false} OverwriteFrom(s: Store, q: seq<Write>, k: Bytes)
    ensures (exists w | w in q :: w.key == k) ==>
      k in Overwrite(s, q) && exists w | w in q :: w.key == k && Overwrite(s, q)[k] == w.env
    ensures !(exists w | w in q :: w.key == k) ==>
      (k in Overwrite(s, q) <==> k in s) && (k in s ==> Overwrite(s, q)[k] == s[k])
  {
    if |q| > 0 {
      var front, last := q[..|q| - 1], q[|q| - 1];
      OverwriteFrom(s, front, k);
      assert q == front + [last];
      assert last in q && forall w | w in front :: w in q;
    }
  }

  /** What the commit leaves on a key it writes carries the commit stamp. */
  lemma OverwriteCarries(s: Store, stamp: Stamp, ops: seq<WriteOp>, k: Bytes)
    requires |stamp.node| < 65536
    ensures k in Overwrite(s, SealAll(stamp, ops)) <==> k in s || Writes(ops, k)
    ensures Writes(ops, k) ==> StampOf(Overwrite(s, SealAll(stamp, ops))[k]) == stamp
    ensures k in s && !Writes(ops, k) ==> Overwrite(s, SealAll(stamp, ops))[k] == s[k]
  {
    var q := SealAll(stamp, ops);
    OverwriteFrom(s, q, k);
    SealAllKeys(stamp, ops, k);
    if Writes(ops, k) {
      var w :| w in q && w.key == k && Overwrite(s, q)[k] == w.env;
      var i :| 0 <= i < |q| && q[i] == w;
      SealCarriesStamp(stamp, ops[i]);
    }
  }

  /** The keys an owner commit would set back: those whose stored timestamp is at the uint64 ceiling
      under a node id above the committer's. */
  ghost predicate NoCeiling(s: Store, ops: seq<WriteOp>, node: Bytes) {
    forall w | w in ops && w.key in s :: StampOf(s[w.key]).ts < MAX_U64 || !Less(node, StampOf(s[w.key]).node)
  }

  lemma CommitStampAtCeiling(s: Store, checks: seq<ReadCheck>, ops: seq<WriteOp>, d: Draw, w: WriteOp)
    requires w in ops && w.key in s
    ensures Greater(StampOf(s[w.key]), CommitStamp(d.last, s, checks, ops, d.wall, d.node))
            <==> StampOf(s[w.key]).ts == MAX_U64 && Less(d.node, StampOf(s[w.key]).node)
  {
    var stored, stamp := StampOf(s[w.key]), CommitStamp(d.last, s, checks, ops, d.wall, d.node);
    var m0 := ObserveKeys(d.last, s, ReadKeys(checks));
    ObserveKeysCovers(d.last, s, ReadKeys(checks));
    ObserveKeysCovers(m0, s, BlindKeys(checks, ops));
    BlindKeysComplete(checks, ops, w);
    NextStampDominatesIff(Mark(d.last, s, checks, ops), d.wall);
    assert stamp.ts >= stored.ts;
  }

  /** A commit that passes keeps every key's stamp from falling exactly when it writes no key stuck at
      the ceiling under a higher node id. */
  lemma CommitKeepsStampsIff(s: Store, checks: seq<ReadCheck>, ops: seq<WriteOp>, d: Draw)
    requires |d.node| < 65536 && PreCommit(s, checks, ops, true, true, Smooth).Pass?
    ensures StampsKept(s, CommitTo(s, checks, ops, d)) <==> NoCeiling(s, ops, d.node)
  {
    var stamp := CommitStamp(d.last, s, checks, ops, d.wall, d.node);
    var s' := CommitTo(s, checks, ops, d);
    forall k | k in s
      ensures k in s'
      ensures Greater(StampOf(s[k]), StampOf(s'[k])) ==>
        Writes(ops, k) && StampOf(s[k]).ts == MAX_U64 && Less(d.node, StampOf(s[k]).node)
    {
      OverwriteCarries(s, stamp, ops, k);
      GreaterIsStrictTotalOrder(StampOf(s[k]), StampOf(s[k]), StampOf(s[k]));
      if Writes(ops, k) {
        var w :| w in ops && w.key == k;
        CommitStampAtCeiling(s, checks, ops, d, w);
      }
    }
    if !NoCeiling(s, ops, d.node) {
      var w :| w in ops && w.key in s && !(StampOf(s[w.key]).ts < MAX_U64 || !Less(d.node, StampOf(s[w.key]).node));
      assert Writes(ops, w.key);
      OverwriteCarries(s, stamp, ops, w.key);
      CommitStampAtCeiling(s, checks, ops, d, w);
    }
  }

  /** A commit that changes the store: its handle is not fenced and its checks pass. */
  predicate Takes(h: History, ev: Event) {
    ev.Commit? && !IsFenced(h.p, ev.h) && PreCommit(h.p.store, ev.checks, ev.ops, true, true, Smooth).Pass?
  }

  /** Node ids that the envelope header can carry. */
  predicate ShortId(h: History, ev: Event) {
    Takes(h, ev) ==> |ev.draw.node| < 65536
  }

  ghost predicate Clear(h: History, ev: Event) {
    Takes(h, ev) ==> NoCeiling(h.p.store, ev.ops, ev.draw.node)
  }

  /** One event lowers no stored stamp exactly when it is not a commit that takes and writes a key stuck
      at the ceiling under a higher node id. */
  lemma EventKeepsStampsIff(h: History, ev: Event)
    requires ShortId(h, ev)
    ensures StampsKept(h.p.store, Next(h, ev).p.store) <==> Clear(h, ev)
  {
    ApplyKeepsStamps(h.p.store, []);
    match ev
    case Apply(_, batch) => ApplyKeepsStamps(h.p.store, batch);
    case Commit(_, checks, ops, d) => if Takes(h, ev) { CommitKeepsStampsIff(h.p.store, checks, ops, d); }
    case _ =>
  }

  ghost predicate ShortIds(r: Run)
    requires IsRun(r)
  {
    r.Then? ==> ShortIds(r.before) && ShortId(Last(r.before), r.ev)
  }

  ghost predicate CommitsClear(r: Run)
    requires IsRun(r)
  {
    r.Then? ==> CommitsClear(r.before) && Clear(Last(r.before), r.ev)
  }

  /** At no event of the history did the stamp stored on a key fall. */
  ghost predicate StampsKeptThroughout(r: Run)
    requires IsRun(r)
  {
    r.Then? ==> StampsKeptThroughout(r.before) && StampsKept(Last(r.before).p.store, Last(r).p.store)
  }

  /** Across any sequence of handoffs, applies and commits no stored stamp ever falls, exactly when no
      commit that took wrote a key stuck at the ceiling under a higher node id. */
  lemma {:induction false} StampsKeptThroughoutIff(r: Run)
    requires IsRun(r) && ShortIds(r)
    ensures StampsKeptThroughout(r) <==> CommitsClear(r)
  {
    if r.Then? {
      StampsKeptThroughoutIff(r.before);
      EventKeepsStampsIff(Last(r.before), r.ev);
    }
  }

  /** A history in which a commit under the id `low` overwrites a value that `high` wrote at the ceiling:
      an open, a replica apply of that value, the commit. */
  function CeilingRun(k: Bytes, low: Bytes, high: Bytes): Run {
    Then(Then(Then(Fresh, Open(1)), Apply(1, [Write(k, AtCeiling(high))])), Commit(1, [], [Delete(k)], Draw(0, 0, low)))
  }

  function AtCeiling(node: Bytes): Bytes {
    Encode(Envelope(Stamp(MAX_U64, node), []))
  }

  lemma AppliedAtCeiling(k: Bytes, high: Bytes)
    requires |high| < 65536
    ensures var r := CeilingRun(k, [], high).before;
            IsRun(r) && Last(r) == History(Position(map[k := AtCeiling(high)], 1, None), [1])
    ensures StampOf(AtCeiling(high)) == Stamp(MAX_U64, high)
  {
    RoundTripIff(Envelope(Stamp(MAX_U64, high), []));
    var none: Store, ws := map[], [Write(k, AtCeiling(high))];
    assert AllDecodable(ws);
    assert ws[..|ws| - 1] == [];
    assert ApplyAll(none, ws) == ApplyOne(none, ws[0]) == map[k := AtCeiling(high)];
  }

  /** The condition does fail: for every key and every two ids in order there is such a history, and in
      it a stored stamp falls. */
  lemma CeilingIsReached(k: Bytes, low: Bytes, high: Bytes)
    requires Less(low, high) && |low| < 65536 && |high| < 65536
    ensures var r := CeilingRun(k, low, high);
            IsRun(r) && ShortIds(r) && !CommitsClear(r) && !StampsKeptThroughout(r)
  {
    AppliedAtCeiling(k, high);
    var r := CeilingRun(k, low, high);
    assert r.before == CeilingRun(k, [], high).before;
    var s, ops := Last(r.before).p.store, [Delete(k)];
    assert ops[..0] == [];
    assert BlindKeys([], ops) == [k];
    assert PreCommit(s, [], ops, true, true, Smooth).Pass?;
    assert Delete(k) in ops && !NoCeiling(s, ops, low);
    StampsKeptThroughoutIff(r);
  }

  /** One history continues another. */
  ghost predicate Extends(r: Run, start: Run) {
    r == start || (r.Then? && Extends(r.before, start))
  }

  /** And then a key's stamp at any moment is not beaten by its stamp at any earlier one. */
  lemma {:induction false} StampsNeverFall(r: Run, start: Run)
    requires IsRun(r) && Extends(r, start) && IsRun(start) && ShortIds(r) && CommitsClear(r)
    ensures StampsKept(Last(start).p.store, Last(r).p.store)
  {
    if r == start {
      ApplyKeepsStamps(Last(r).p.store, []);
    } else {
      StampsNeverFall(r.before, start);
      EventKeepsStampsIff(Last(r.before), r.ev);
      StampsKeptTransitive(Last(start).p.store, Last(r.before).p.store, Last(r).p.store);
    }
  }
}
