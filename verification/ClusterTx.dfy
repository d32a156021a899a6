/** The client side of a CAS transaction: a buffer of read-checks and writes pinned to one storage
    unit, and what a committed run of a closure over that buffer amounts to. */
module ClusterTx {
  import opened Basics
  import opened ApplyIfNewer
  import opened CommitCas
  import opened CasRefinement

  // ------------------------------------------------------------ buffer values

  /** How the cluster maps keys at one moment. In multi-backend mode: to storage units, and to the shard
      keys that decide which keys may share a transaction; a reshard cut-over changes the first and not
      the second. Otherwise: to owner nodes. */
  datatype Layout = Units(unitOf: Bytes -> int, shardOf: Bytes -> Bytes) | Owners(ownerOf: Bytes -> int)

  /** The boundary a transaction must stay within. */
  function Place(lay: Layout, k: Bytes): int {
    match lay case Units(unitOf, _) => unitOf(k) case Owners(ownerOf) => ownerOf(k)
  }

  /** The key a transaction was pinned on, and its unit or owner at that time. */
  datatype Pin = Pin(place: int, key: Bytes)

  /** The transaction's buffer: what it is pinned to, the first observation of every key it read
      from the cluster, and its writes, one entry per key. */
  datatype Tx = Tx(pin: Option<Pin>, checks: seq<ReadCheck>, ops: seq<WriteOp>)

  function FindOp(ops: seq<WriteOp>, k: Bytes): Option<WriteOp> {
    if |ops| == 0 then None else if ops[0].key == k then Some(ops[0]) else FindOp(ops[1..], k)
  }

  /** Overwrite the entry for the key in place, or append. */
  function BufferOp(ops: seq<WriteOp>, w: WriteOp): seq<WriteOp> {
    if |ops| == 0 then [w]
    else if ops[0].key == w.key then [w] + ops[1..]
    else [ops[0]] + BufferOp(ops[1..], w)
  }

  function FindCheck(checks: seq<ReadCheck>, k: Bytes): Option<ReadCheck> {
    if |checks| == 0 then None
    else if checks[0].key == k then Some(checks[0])
    else FindCheck(checks[1..], k)
  }

  /** Only the first observation of a key is recorded. */
  function RecordCheck(checks: seq<ReadCheck>, c: ReadCheck): seq<ReadCheck> {
    if FindCheck(checks, c.key).Some? then checks else checks + [c]
  }

  // -------------------------------------------------------------- transaction

  /** What a routed single-key read of the cluster answers. */
  datatype Routed = Value(v: Bytes) | Absent | Down

  /** What the closure sees. */
  datatype Answer = Got(v: Bytes) | Missing | Stored | CrossShard | Moved | Unreachable | Finalized

  function AsCheck(k: Bytes, r: Routed): ReadCheck
    requires !r.Down?
  {
    match r case Value(v) => ExpectValue(k, v) case Absent => ExpectAbsent(k)
  }

  function AsAnswer(r: Routed): Answer {
    match r case Value(v) => Got(v) case Absent => Missing case Down => Unreachable
  }

  class Transaction {
    var pin: Option<Pin>
    var done: bool
    var checks: seq<ReadCheck>
    var readSeen: map<Bytes, nat>
    var writeBuf: seq<WriteOp>
    var writeIdx: map<Bytes, nat>

    ghost predicate Valid()
      reads this
    {
      && OpsIndexed(writeBuf, writeIdx)
      && (forall k | k in readSeen :: readSeen[k] < |checks| && checks[readSeen[k]].key == k)
      && (forall i | 0 <= i < |checks| ::
            checks[i].key in readSeen && readSeen[checks[i].key] == i)
    }

    ghost function View(): Tx
      reads this
    {
      Tx(pin, checks, writeBuf)
    }

    constructor ()
      ensures Valid() && !done && View() == Tx(None, [], [])
    {
      pin, done := None, false;
      checks, readSeen := [], map[];
      writeBuf, writeIdx := [], map[];
    }

    method PinOn(key: Bytes, lay: Layout)
      requires Valid()
      modifies this
      ensures Valid() && done == old(done)
      ensures View() == Pinned(old(View()), lay, key)
    {
      if pin.None? { pin := Some(Pin(Place(lay, key), key)); }
    }

    /** Pins on first touch, then refuses a key that is by now in another unit: for good when it shards
        differently, retryably when only the layout moved under the transaction. Outside multi-backend
        mode a key with another owner is refused for good. */
    method GuardShard(key: Bytes, lay: Layout) returns (refusal: Option<Answer>)
      requires Valid()
      modifies this
      ensures Valid() && done == old(done)
      ensures done ==> refusal == Some(Finalized) && View() == old(View())
      ensures !done ==> View() == Pinned(old(View()), lay, key) && refusal == Guarded(old(pin), lay, key)
    {
      if done { return Some(Finalized); }
      if pin.None? {
        PinOn(key, lay);
        return None;
      }
      if Place(lay, key) != pin.value.place {
        if lay.Units? && lay.shardOf(key) == lay.shardOf(pin.value.key) { return Some(Moved); }
        return Some(CrossShard);
      }
      refusal := None;
    }

    /** `routed` is what the cluster would answer if the key has to be read from it. */
    method Get(key: Bytes, lay: Layout, routed: Routed) returns (a: Answer)
      requires Valid()
      modifies this
      ensures Valid() && done == old(done)
      ensures done ==> a == Finalized && View() == old(View())
      ensures !done ==> (View(), a) == GetStep(old(View()), lay, key, routed)
    {
      var refusal := GuardShard(key, lay);
      if refusal.Some? { return refusal.value; }
      FindOpByIndex(writeBuf, writeIdx, key);
      if key in writeIdx {
        match writeBuf[writeIdx[key]] {
          case Put(_, v) => return Got(v);
          case Delete(_) => return Missing;
        }
      }
      if routed.Down? { return Unreachable; }
      RecordRead(AsCheck(key, routed));
      a := AsAnswer(routed);
    }

    method RecordRead(c: ReadCheck)
      requires Valid()
      modifies this
      ensures Valid() && done == old(done)
      ensures View() == old(View()).(checks := RecordCheck(old(checks), c))
    {
      FindCheckByIndex(checks, readSeen, c.key);
      if c.key in readSeen { return; }
      readSeen := readSeen[c.key := |checks|];
      checks := checks + [c];
    }

    method Put(key: Bytes, value: Bytes, lay: Layout) returns (a: Answer)
      requires Valid()
      modifies this
      ensures Valid() && done == old(done)
      ensures done ==> a == Finalized && View() == old(View())
      ensures !done ==> (View(), a) == WriteStep(old(View()), lay, WriteOp.Put(key, value))
    {
      var refusal := GuardShard(key, lay);
      if refusal.Some? { return refusal.value; }
      BufferWrite(WriteOp.Put(key, value));
      a := Stored;
    }

    method Delete(key: Bytes, lay: Layout) returns (a: Answer)
      requires Valid()
      modifies this
      ensures Valid() && done == old(done)
      ensures done ==> a == Finalized && View() == old(View())
      ensures !done ==> (View(), a) == WriteStep(old(View()), lay, WriteOp.Delete(key))
    {
      var refusal := GuardShard(key, lay);
      if refusal.Some? { return refusal.value; }
      BufferWrite(WriteOp.Delete(key));
      a := Stored;
    }

    method BufferWrite(w: WriteOp)
      requires Valid()
      modifies this
      ensures Valid() && done == old(done)
      ensures View() == old(View()).(ops := BufferOp(old(writeBuf), w))
    {
      BufferOpByIndex(writeBuf, writeIdx, w);
      IndexAfterBuffer(writeBuf, writeIdx, w);
      if w.key in writeIdx {
        writeBuf := writeBuf[writeIdx[w.key] := w];
        return;
      }
      writeIdx := writeIdx[w.key := |writeBuf|];
      writeBuf := writeBuf + [w];
    }

    /** Finalizes and hands out what is to be shipped; None when there is nothing to validate or
        apply. A second call is refused. */
    method Finalize() returns (ok: bool, shipped: Option<Submitted>)
      requires Valid()
      modifies this
      ensures Valid() && done && View() == old(View())
      ensures ok == !old(done)
      ensures shipped == if old(done) || pin.None? || (writeBuf == [] && checks == []) then None
                         else Some(Submitted(checks, writeBuf))
      ensures shipped.Some? ==> DistinctKeys(shipped.value.ops)
    {
      if done { return false, None; }
      done := true;
      ok := true;
      if pin.None? || (|writeBuf| == 0 && |checks| == 0) { return true, None; }
      shipped := Some(Submitted(checks, writeBuf));
    }
  }

  /** `idx` maps each buffered key to its place in the buffer. */
  ghost predicate OpsIndexed(ops: seq<WriteOp>, idx: map<Bytes, nat>) {
    && (forall k | k in idx :: idx[k] < |ops| && ops[idx[k]].key == k)
    && (forall i | 0 <= i < |ops| :: ops[i].key in idx && idx[ops[i].key] == i)
  }

  lemma {:induction false} FindOpByIndex(ops: seq<WriteOp>, idx: map<Bytes, nat>, k: Bytes)
    requires OpsIndexed(ops, idx)
    ensures FindOp(ops, k) == if k in idx then Some(ops[idx[k]]) else None
  {
    FindOpAt(ops, k, if k in idx then Some(idx[k]) else None);
  }

  lemma {:induction false} FindOpAt(ops: seq<WriteOp>, k: Bytes, at: Option<nat>)
    requires DistinctKeys(ops)
    requires at.Some? ==> at.value < |ops| && ops[at.value].key == k
    requires at.None? ==> forall i | 0 <= i < |ops| :: ops[i].key != k
    ensures FindOp(ops, k) == if at.Some? then Some(ops[at.value]) else None
  {
    if |ops| > 0 && ops[0].key != k {
      FindOpAt(ops[1..], k, if at.Some? then Some(at.value - 1) else None);
    }
  }

  lemma FindCheckByIndex(checks: seq<ReadCheck>, idx: map<Bytes, nat>, k: Bytes)
    requires forall k | k in idx :: idx[k] < |checks| && checks[idx[k]].key == k
    requires forall i | 0 <= i < |checks| :: checks[i].key in idx && idx[checks[i].key] == i
    ensures FindCheck(checks, k).Some? <==> k in idx
  {
    FindCheckIffPresent(checks, k);
    if k in idx { assert checks[idx[k]].key == k; }
  }

  lemma {:induction false} FindCheckIffPresent(checks: seq<ReadCheck>, k: Bytes)
    ensures FindCheck(checks, k).Some? <==> exists i :: 0 <= i < |checks| && checks[i].key == k
    ensures FindCheck(checks, k).Some? ==> FindCheck(checks, k).value in checks && FindCheck(checks, k).value.key == k
  {
    if |checks| > 0 && checks[0].key != k {
      FindCheckIffPresent(checks[1..], k);
      if i :| 0 <= i < |checks| && checks[i].key == k { assert checks[1..][i - 1].key == k; }
    }
  }

  lemma BufferOpByIndex(ops: seq<WriteOp>, idx: map<Bytes, nat>, w: WriteOp)
    requires OpsIndexed(ops, idx)
    ensures BufferOp(ops, w) == if w.key in idx then ops[idx[w.key] := w] else ops + [w]
  {
    BufferOpAt(ops, w, if w.key in idx then Some(idx[w.key]) else None);
  }

  lemma IndexAfterBuffer(ops: seq<WriteOp>, idx: map<Bytes, nat>, w: WriteOp)
    requires OpsIndexed(ops, idx)
    ensures w.key in idx ==> OpsIndexed(ops[idx[w.key] := w], idx)
    ensures w.key !in idx ==> OpsIndexed(ops + [w], idx[w.key := |ops|])
  {
  }

  lemma {:induction false} BufferOpAt(ops: seq<WriteOp>, w: WriteOp, at: Option<nat>)
    requires DistinctKeys(ops)
    requires at.Some? ==> at.value < |ops| && ops[at.value].key == w.key
    requires at.None? ==> forall i | 0 <= i < |ops| :: ops[i].key != w.key
    ensures BufferOp(ops, w) == if at.Some? then ops[at.value := w] else ops + [w]
  {
    if |ops| > 0 {
      var rest := ops[1..];
      if ops[0].key == w.key {
        assert at == Some(0) && ops[0 := w] == [w] + rest;
      } else if at.Some? {
        BufferOpAt(rest, w, Some(at.value - 1));
        assert [ops[0]] + rest[at.value - 1 := w] == ops[at.value := w];
      } else {
        BufferOpAt(rest, w, None);
        assert [ops[0]] + (rest + [w]) == ops + [w];
      }
    }
  }

  // --------------------------------------------------------- one closure step

  /** The shard guard's verdict on a key under the layout of the moment. */
  function Guarded(pin: Option<Pin>, lay: Layout, k: Bytes): Option<Answer> {
    if pin.None? || Place(lay, k) == pin.value.place then None
    else if lay.Units? && lay.shardOf(k) == lay.shardOf(pin.value.key) then Some(Moved)
    else Some(CrossShard)
  }

  function Pinned(tx: Tx, lay: Layout, k: Bytes): Tx {
    if tx.pin.None? then tx.(pin := Some(Pin(Place(lay, k), k))) else tx
  }

  function GetStep(tx: Tx, lay: Layout, k: Bytes, routed: Routed): (Tx, Answer) {
    var tx' := Pinned(tx, lay, k);
    match Guarded(tx.pin, lay, k)
    case Some(refusal) => (tx', refusal)
    case None =>
      match FindOp(tx.ops, k)
      case Some(Put(_, v)) => (tx', Got(v))
      case Some(Delete(_)) => (tx', Missing)
      case None =>
        if routed.Down? then (tx', Unreachable)
        else (tx'.(checks := RecordCheck(tx.checks, AsCheck(k, routed))), AsAnswer(routed))
  }

  function WriteStep(tx: Tx, lay: Layout, w: WriteOp): (Tx, Answer) {
    var tx' := Pinned(tx, lay, w.key);
    match Guarded(tx.pin, lay, w.key)
    case Some(refusal) => (tx', refusal)
    case None => (tx'.(ops := BufferOp(tx.ops, w)), Stored)
  }
}
