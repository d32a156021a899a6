/** The replica-receiving write: one transaction that writes an incoming envelope only when its
    stamp strictly beats the stored one, and what any history of such transactions leaves behind. */
module ApplyIfNewer {
  import opened Basics
  import opened Envelope
  import opened StampClock

  type Store = map<Bytes, Bytes>

  /** One already-encoded entry of a write-set fan-out. */
  datatype Write = Write(key: Bytes, env: Bytes)

  predicate Decodable(w: Write) {
    Decode(w.env).Ok?
  }

  predicate AllDecodable(ws: seq<Write>) {
    forall w | w in ws :: Decodable(w)
  }

  predicate Wins(s: Store, w: Write) {
    w.key !in s || Greater(StampOf(w.env), StampOf(s[w.key]))
  }

  function ApplyOne(s: Store, w: Write): Store {
    if Wins(s, w) then s[w.key := w.env] else s
  }

  /** The entries applied in order. */
  function ApplyAll(s: Store, ws: seq<Write>): Store {
    if |ws| == 0 then s else ApplyOne(ApplyAll(s, ws[..|ws| - 1]), ws[|ws| - 1])
  }

  /** A batch commits whole or, when one entry is corrupt, not at all. */
  function ApplyBatch(s: Store, ws: seq<Write>): Store {
    if AllDecodable(ws) then ApplyAll(s, ws) else s
  }

  function StoredTs(s: Store, k: Bytes): U64 {
    if k in s then StampOf(s[k]).ts else 0
  }

  // -------------------------------------------------------- the transaction

  /** One node-local backend; `data` is what is committed. */
  class UnitStore {
    var data: Store

    constructor (init: Store)
      ensures data == init
    {
      data := init;
    }
  }

  /** Where the backend refuses, if anywhere: at Begin, at the Get or Put of entry `at`, or at
      Commit. */
  datatype Fault = NoFault | BeginFails | OpFails(at: nat) | CommitFails

  datatype ApplyResult = Applied(any: bool) | ApplyError

  /** Some entry beat what it was compared with. */
  predicate AnyWins(s: Store, ws: seq<Write>) {
    |ws| > 0 && (AnyWins(s, ws[..|ws| - 1]) || Wins(ApplyAll(s, ws[..|ws| - 1]), ws[|ws| - 1]))
  }

  /** The clock mark is past every stamp the entries were compared with. */
  ghost predicate Ratcheted(last: U64, s: Store, ws: seq<Write>) {
    forall w | w in ws :: last >= StampOf(w.env).ts && last >= StoredTs(s, w.key)
  }

  /** And no further: it is the mark there was, or one of those stamps. */
  ghost predicate NoFurther(before: U64, last: U64, s: Store, ws: seq<Write>) {
    last == before || exists w | w in ws :: last == StampOf(w.env).ts || last == StoredTs(s, w.key)
  }

  /** The clock mark after the entries: for each, its own stamp is observed and then the stored one. */
  function Ratchet(last: U64, s: Store, ws: seq<Write>): U64 {
    if |ws| == 0 then last
    else
      var front, w := ws[..|ws| - 1], ws[|ws| - 1];
      Observed(Observed(Ratchet(last, s, front), StampOf(w.env).ts), StoredTs(ApplyAll(s, front), w.key))
  }

  lemma {:induction false} StoredTsFrom(s: Store, ws: seq<Write>, k: Bytes)
    ensures StoredTs(ApplyAll(s, ws), k) == StoredTs(s, k)
            || exists w | w in ws :: w.key == k && StoredTs(ApplyAll(s, ws), k) == StampOf(w.env).ts
  {
    if |ws| > 0 {
      var front, w := ws[..|ws| - 1], ws[|ws| - 1];
      StoredTsFrom(s, front, k);
      assert w in ws && forall x | x in front :: x in ws;
    }
  }

  lemma RatchetedSnoc(last: U64, last': U64, s: Store, front: seq<Write>, w: Write)
    requires Ratcheted(last, s, front) && last' >= last && last' >= StampOf(w.env).ts && last' >= StoredTs(s, w.key)
    ensures Ratcheted(last', s, front + [w])
  {
  }

  lemma NoFurtherSnoc(before: U64, last: U64, last': U64, s: Store, front: seq<Write>, w: Write)
    requires NoFurther(before, last, s, front)
    requires last' == last || last' == StampOf(w.env).ts || last' == StoredTs(ApplyAll(s, front), w.key)
    ensures NoFurther(before, last', s, front + [w])
  {
    var ws := front + [w];
    assert w in ws && forall x | x in front :: x in ws;
    StoredTsFrom(s, front, w.key);
  }

  lemma RatchetOnce(last: U64, m: U64, s: Store, front: seq<Write>, w: Write)
    requires m >= last && Ratcheted(m, s, front) && NoFurther(last, m, s, front)
    ensures
      var m' := Observed(Observed(m, StampOf(w.env).ts), StoredTs(ApplyAll(s, front), w.key));
      m' >= last && Ratcheted(m', s, front + [w]) && NoFurther(last, m', s, front + [w])
  {
    var m' := Observed(Observed(m, StampOf(w.env).ts), StoredTs(ApplyAll(s, front), w.key));
    StoredTsNeverFalls(s, front, w.key);
    RatchetedSnoc(m, m', s, front, w);
    NoFurtherSnoc(last, m, m', s, front, w);
  }

  /** The mark ends past every stamp compared, and no further. */
  lemma {:induction false} RatchetIs(last: U64, s: Store, ws: seq<Write>)
    ensures Ratchet(last, s, ws) >= last
    ensures Ratcheted(Ratchet(last, s, ws), s, ws) && NoFurther(last, Ratchet(last, s, ws), s, ws)
  {
    if |ws| > 0 {
      var front, w := ws[..|ws| - 1], ws[|ws| - 1];
      RatchetIs(last, s, front);
      RatchetOnce(last, Ratchet(last, s, front), s, front, w);
      assert ws == front + [w];
    }
  }

  lemma RatchetStep(last: U64, s: Store, ws: seq<Write>, i: nat)
    requires i < |ws|
    ensures Ratchet(last, s, ws[..i + 1])
            == Observed(Observed(Ratchet(last, s, ws[..i]), StampOf(ws[i].env).ts),
                        StoredTs(ApplyAll(s, ws[..i]), ws[i].key))
  {
    assert ws[..i + 1][..i] == ws[..i];
  }

  lemma {:induction false} RatchetGrows(last: U64, s: Store, ws: seq<Write>, i: nat)
    requires i <= |ws|
    ensures Ratchet(last, s, ws[..i]) <= Ratchet(last, s, ws)
    decreases |ws| - i
  {
    if i == |ws| {
      assert ws[..i] == ws;
    } else {
      RatchetStep(last, s, ws, i);
      RatchetGrows(last, s, ws, i + 1);
    }
  }

  /** The mark before an entry, once its own stamp is observed, and once it is applied. */
  lemma EntryMark(last: U64, s: Store, ws: seq<Write>, i: nat)
    requires i < |ws|
    ensures
      var m := Ratchet(last, s, ws[..i]);
      var seen := Observed(m, StampOf(ws[i].env).ts);
      && Ratchet(last, s, ws[..i + 1]) == Observed(seen, StoredTs(ApplyAll(s, ws[..i]), ws[i].key))
      && m <= seen <= Ratchet(last, s, ws[..i + 1]) && seen <= Ratchet(last, s, ws)
  {
    RatchetStep(last, s, ws, i);
    RatchetGrows(last, s, ws, i + 1);
  }

  lemma OneMoreEntry(s: Store, ws: seq<Write>, i: nat)
    requires i < |ws|
    ensures ApplyAll(s, ws[..i + 1]) == ApplyOne(ApplyAll(s, ws[..i]), ws[i])
    ensures AnyWins(s, ws[..i + 1]) == (AnyWins(s, ws[..i]) || Wins(ApplyAll(s, ws[..i]), ws[i]))
    ensures AllDecodable(ws[..i + 1]) <==> AllDecodable(ws[..i]) && Decodable(ws[i])
  {
    assert ws[..i + 1] == ws[..i] + [ws[i]];
    assert ws[..i + 1][..i] == ws[..i];
  }

  /** One compare-and-put of the transaction. */
  method ApplyEntry(tx: Store, clock: Clock, w: Write) returns (tx': Store, won: bool)
    requires Decodable(w)
    modifies clock
    ensures tx' == ApplyOne(tx, w) && won == Wins(tx, w)
    ensures clock.last == Observed(old(clock.last), StoredTs(tx, w.key))
  {
    tx', won := tx, true;
    if w.key in tx {
      clock.Observe(StampOf(tx[w.key]).ts);
      won := Greater(StampOf(w.env), StampOf(tx[w.key]));
    }
    if won { tx' := tx[w.key := w.env]; }
  }

  /** The apply-if-newer transaction. It commits the whole batch or leaves the store alone, reports
      whether any entry won, and ratchets the clock past every stamp it compared. */
  method ApplyEnvelopesTx(unit: UnitStore, clock: Clock, writes: seq<Write>, fault: Fault)
    returns (r: ApplyResult)
    modifies unit, clock
    ensures r.Applied? <==> AllDecodable(writes) && fault != BeginFails && fault != CommitFails
                            && (fault.OpFails? ==> fault.at >= |writes|)
    ensures unit.data == if r.Applied? then ApplyBatch(old(unit.data), writes) else old(unit.data)
    ensures r.Applied? ==> r.any == AnyWins(old(unit.data), writes)
    ensures old(clock.last) <= clock.last <= Ratchet(old(clock.last), old(unit.data), writes)
    ensures r.Applied? ==> clock.last == Ratchet(old(clock.last), old(unit.data), writes)
    ensures r.Applied? ==> Ratcheted(clock.last, old(unit.data), writes)
  {
    RatchetIs(clock.last, unit.data, writes);
    if fault.BeginFails? { return ApplyError; }
    var ok, tx, any := ApplyEntries(unit.data, clock, writes, if fault.OpFails? then fault.at else |writes|);
    if !ok || fault.CommitFails? { return ApplyError; }
    unit.data := tx;
    r := Applied(any);
  }

  /** The transaction's loop over the entries, of which the Get or Put of entry `failing` is refused. */
  method ApplyEntries(data: Store, clock: Clock, writes: seq<Write>, failing: nat)
    returns (ok: bool, tx: Store, any: bool)
    modifies clock
    ensures ok <==> AllDecodable(writes) && failing >= |writes|
    ensures ok ==> tx == ApplyAll(data, writes) && any == AnyWins(data, writes)
    ensures old(clock.last) <= clock.last <= Ratchet(old(clock.last), data, writes)
    ensures ok ==> clock.last == Ratchet(old(clock.last), data, writes)
  {
    ghost var start := clock.last;
    tx, any := data, false;
    for i := 0 to |writes|
      invariant tx == ApplyAll(data, writes[..i]) && any == AnyWins(data, writes[..i])
      invariant AllDecodable(writes[..i]) && failing >= i
      invariant start <= clock.last == Ratchet(start, data, writes[..i])
    {
      OneMoreEntry(data, writes, i);
      EntryMark(start, data, writes, i);
      if !Decodable(writes[i]) { return false, tx, any; }
      clock.Observe(StampOf(writes[i].env).ts);
      if failing == i { return false, tx, any; }
      var won;
      tx, won := ApplyEntry(tx, clock, writes[i]);
      any := any || won;
    }
    assert writes[..|writes|] == writes;
    ok := true;
  }

  lemma {:induction false} StoredTsNeverFalls(s: Store, ws: seq<Write>, k: Bytes)
    ensures StoredTs(ApplyAll(s, ws), k) >= StoredTs(s, k)
    ensures k in s ==> k in ApplyAll(s, ws)
  {
    if |ws| > 0 {
      StoredTsNeverFalls(s, ws[..|ws| - 1], k);
    }
  }

  /** The key holds something newer than it did. */
  ghost predicate Rose(s: Store, t: Store, k: Bytes) {
    k in t && (k in s ==> Greater(StampOf(t[k]), StampOf(s[k])))
  }

  lemma RoseStays(s: Store, t: Store, w: Write, k: Bytes)
    requires Rose(s, t, k)
    ensures Rose(s, ApplyOne(t, w), k)
  {
    if k == w.key && Wins(t, w) && k in s { GreaterIsStrictTotalOrder(StampOf(w.env), StampOf(t[k]), StampOf(s[k])); }
  }

  lemma {:induction false} WinsShow(s: Store, ws: seq<Write>) returns (k: Bytes)
    requires AnyWins(s, ws)
    ensures Rose(s, ApplyAll(s, ws), k)
  {
    var front, w := ws[..|ws| - 1], ws[|ws| - 1];
    var t := ApplyAll(s, front);
    if AnyWins(s, front) {
      k := WinsShow(s, front);
      RoseStays(s, t, w, k);
    } else {
      NoWinsNoChange(s, front);
      k := w.key;
    }
  }

  lemma {:induction false} NoWinsNoChange(s: Store, ws: seq<Write>)
    requires !AnyWins(s, ws)
    ensures ApplyAll(s, ws) == s
  {
    if |ws| > 0 { NoWinsNoChange(s, ws[..|ws| - 1]); }
  }

  /** An apply reports that something won exactly when it changed the store; so a tie, which keeps what
      is stored, reports nothing. */
  lemma AnyWinsIff(s: Store, ws: seq<Write>)
    ensures AnyWins(s, ws) <==> ApplyAll(s, ws) != s
  {
    if AnyWins(s, ws) {
      var k := WinsShow(s, ws);
      if k in s { GreaterIsStrictTotalOrder(StampOf(s[k]), StampOf(s[k]), StampOf(s[k])); }
    } else {
      NoWinsNoChange(s, ws);
    }
  }

  // ------------------------------------------------------------- convergence

  /** Everything a key has been offered: the value it started with and the delivered entries. */
  ghost function Candidates(s: Store, ws: seq<Write>, k: Bytes): set<Bytes> {
    (if k in s then {s[k]} else {}) + set w | w in ws && w.key == k :: w.env
  }

  /** Equal stamps on a key carry equal bytes. */
  ghost predicate OneValuePerStamp(cands: set<Bytes>) {
    forall a, b | a in cands && b in cands && StampOf(a) == StampOf(b) :: a == b
  }

  /** `v` carries a maximal stamp of `cands`. */
  ghost predicate IsNewest(v: Bytes, cands: set<Bytes>) {
    v in cands && forall c | c in cands :: !Greater(StampOf(c), StampOf(v))
  }

  /** The survivor of one compare beats whatever the old holder or the newcomer beat. */
  lemma WinnerStaysNewest(held: Stamp, incoming: Stamp, other: Stamp)
    requires other == incoming || !Greater(other, held)
    ensures !Greater(other, if Greater(incoming, held) then incoming else held)
  {
    GreaterIsStrictTotalOrder(other, incoming, held);
    GreaterIsStrictTotalOrder(incoming, held, other);
    GreaterIsStrictTotalOrder(held, other, incoming);
  }

  lemma NewestAfterOne(s: Store, w: Write, before: set<Bytes>)
    requires w.key in s <==> before != {}
    requires w.key in s ==> IsNewest(s[w.key], before)
    ensures IsNewest(ApplyOne(s, w)[w.key], before + {w.env})
  {
    forall c | c in before + {w.env}
      ensures !Greater(StampOf(c), StampOf(ApplyOne(s, w)[w.key]))
    {
      if w.key in s {
        WinnerStaysNewest(StampOf(s[w.key]), StampOf(w.env), StampOf(c));
      } else {
        GreaterIsStrictTotalOrder(StampOf(w.env), StampOf(w.env), StampOf(w.env));
      }
    }
  }

  lemma CandidatesSnoc(s: Store, front: seq<Write>, w: Write, k: Bytes)
    ensures Candidates(s, front + [w], k) == Candidates(s, front, k) + (if w.key == k then {w.env} else {})
  {
    assert w in front + [w];
    assert forall x | x in front :: x in front + [w];
  }

  /** The key holds something exactly when something was offered, and then a maximal-stamp value of it. */
  ghost predicate HoldsNewest(s: Store, k: Bytes, cands: set<Bytes>) {
    (k in s <==> cands != {}) && (k in s ==> IsNewest(s[k], cands))
  }

  lemma HoldsNewestAfterOne(s: Store, w: Write, k: Bytes, before: set<Bytes>)
    requires HoldsNewest(s, k, before)
    ensures HoldsNewest(ApplyOne(s, w), k, before + (if w.key == k then {w.env} else {}))
  {
    if w.key == k {
      NewestAfterOne(s, w, before);
    } else {
      assert before + {} == before;
    }
  }

  lemma {:induction false} KeyHoldsNewest(s: Store, ws: seq<Write>, k: Bytes)
    ensures HoldsNewest(ApplyAll(s, ws), k, Candidates(s, ws, k))
  {
    if |ws| == 0 {
      if k in s { GreaterIsStrictTotalOrder(StampOf(s[k]), StampOf(s[k]), StampOf(s[k])); }
    } else {
      var front, w := ws[..|ws| - 1], ws[|ws| - 1];
      KeyHoldsNewest(s, front, k);
      assert ws == front + [w];
      CandidatesSnoc(s, front, w, k);
      HoldsNewestAfterOne(ApplyAll(s, front), w, k, Candidates(s, front, k));
    }
  }

  function Deliver(s: Store, batches: seq<seq<Write>>): Store {
    if |batches| == 0 then s
    else ApplyBatch(Deliver(s, batches[..|batches| - 1]), batches[|batches| - 1])
  }

  /** The entries of the batches that were not refused as corrupt. */
  function Accepted(batches: seq<seq<Write>>): seq<Write> {
    if |batches| == 0 then []
    else
      var last := batches[|batches| - 1];
      Accepted(batches[..|batches| - 1]) + (if AllDecodable(last) then last else [])
  }

  lemma {:induction false} ApplyAllAppend(s: Store, a: seq<Write>, b: seq<Write>)
    ensures ApplyAll(s, a + b) == ApplyAll(ApplyAll(s, a), b)
  {
    if |b| == 0 {
      assert a + b == a;
    } else {
      ApplyAllAppend(s, a, b[..|b| - 1]);
      assert (a + b)[..|a + b| - 1] == a + b[..|b| - 1];
    }
  }

  lemma {:induction false} DeliverFlattens(s: Store, batches: seq<seq<Write>>)
    ensures Deliver(s, batches) == ApplyAll(s, Accepted(batches))
  {
    if |batches| > 0 {
      var front, last := batches[..|batches| - 1], batches[|batches| - 1];
      DeliverFlattens(s, front);
      ApplyAllAppend(s, Accepted(front), if AllDecodable(last) then last else []);
    }
  }

  /** Every key ends at a maximal-stamp value among what it started with and what was delivered. */
  lemma DeliveredKeyHoldsNewest(s: Store, batches: seq<seq<Write>>, k: Bytes)
    ensures HoldsNewest(Deliver(s, batches), k, Candidates(s, Accepted(batches), k))
  {
    DeliverFlattens(s, batches);
    KeyHoldsNewest(s, Accepted(batches), k);
  }

  /** Two replicas offered the same values for every key, in any order, grouping and repetition
      and from any starting stores, end identical. */
  lemma ReplicasConverge(s1: Store, b1: seq<seq<Write>>, s2: Store, b2: seq<seq<Write>>)
    requires forall k :: Candidates(s1, Accepted(b1), k) == Candidates(s2, Accepted(b2), k)
    requires forall k :: OneValuePerStamp(Candidates(s1, Accepted(b1), k))
    ensures Deliver(s1, b1) == Deliver(s2, b2)
  {
    var r1, r2 := Deliver(s1, b1), Deliver(s2, b2);
    forall k
      ensures k in r1 <==> k in r2
      ensures k in r1 ==> r1[k] == r2[k]
    {
      DeliveredKeyHoldsNewest(s1, b1, k);
      DeliveredKeyHoldsNewest(s2, b2, k);
      if k in r1 {
        GreaterIsStrictTotalOrder(StampOf(r1[k]), StampOf(r2[k]), StampOf(r1[k]));
        assert OneValuePerStamp(Candidates(s1, Accepted(b1), k));
      }
    }
  }

  /** Delivering again what was already delivered, in any grouping, changes nothing. */
  lemma RedeliveryIsNoOp(s: Store, batches: seq<seq<Write>>, again: seq<seq<Write>>)
    requires Elems(Accepted(again)) <= Elems(Accepted(batches))
    requires forall k :: OneValuePerStamp(Candidates(s, Accepted(batches), k))
    ensures Deliver(Deliver(s, batches), again) == Deliver(s, batches)
  {
    var r := Deliver(s, batches);
    var r' := Deliver(r, again);
    forall k
      ensures k in r <==> k in r'
      ensures k in r ==> r[k] == r'[k]
    {
      var cands := Candidates(s, Accepted(batches), k);
      DeliveredKeyHoldsNewest(s, batches, k);
      DeliveredKeyHoldsNewest(r, again, k);
      assert forall w | w in Accepted(again) :: w in Elems(Accepted(batches));
      assert Candidates(r, Accepted(again), k) <= cands;
      if k in r {
        assert r[k] in Candidates(r, Accepted(again), k);
        GreaterIsStrictTotalOrder(StampOf(r[k]), StampOf(r'[k]), StampOf(r[k]));
      }
    }
  }
}
