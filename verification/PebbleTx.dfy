/** The Pebble transaction: a snapshot, a write batch, and the overlay that answers reads from both;
    and the key range that a prefix scan asks for. */
module PebbleTx {
  import opened Basics
  import opened Lex
  import opened ApplyIfNewer

  // ------------------------------------------------------------------ prefix ranges

  predicate HasPrefix(k: Bytes, p: Bytes) {
    p <= k
  }

  /** The smallest string above every string with prefix `p`; none when nothing is. */
  function UpperBound(p: Bytes): Option<Bytes> {
    if p == [] then None
    else match UpperBound(p[1..])
      case Some(u) => Some([p[0]] + u)
      case None => if p[0] < 255 then Some([p[0] + 1]) else None
  }

  predicate InRange(k: Bytes, p: Bytes) {
    !Less(k, p) && (UpperBound(p).Some? ==> Less(k, UpperBound(p).value))
  }

  /** A key has the prefix exactly when it lies between the prefix and its upper bound. */
  lemma {:induction false} PrefixIsRange(k: Bytes, p: Bytes)
    ensures HasPrefix(k, p) <==> InRange(k, p)
    decreases |p|
  {
    if p != [] && k != [] {
      var k', p' := k[1..], p[1..];
      PrefixIsRange(k', p');
      assert k == [k[0]] + k' && p == [p[0]] + p';
      assert HasPrefix(k, p) <==> k[0] == p[0] && HasPrefix(k', p');
      match UpperBound(p')
      case Some(u) => assert ([p[0]] + u)[1..] == u;
      case None =>
        if p[0] < 255 {
          var u := UpperBound(p).value;
          assert u == [p[0] + 1] && u[1..] == [];
          assert Less(k, u) <==> k[0] < u[0] || (k[0] == u[0] && Less(k', u[1..]));
          assert Less(k, u) <==> k[0] <= p[0];
        }
        assert Less(k, p) <==> k[0] < p[0] || (k[0] == p[0] && Less(k', p'));
    }
  }

  ghost predicate AllOnes(b: Bytes) {
    forall i | 0 <= i < |b| :: b[i] == 255
  }

  lemma {:induction false} NoBoundOfOnes(b: Bytes)
    requires AllOnes(b)
    ensures UpperBound(b) == None
  {
    if b != [] { NoBoundOfOnes(b[1..]); }
  }

  lemma {:induction false} BoundBeforeOnes(front: Bytes, x: Byte, tail: Bytes)
    requires AllOnes(tail) && x < 255
    ensures UpperBound(front + [x] + tail) == Some(front + [x + 1])
  {
    var all := front + [x] + tail;
    if front == [] {
      NoBoundOfOnes(tail);
      assert all[1..] == tail && front + [x + 1] == [x + 1];
    } else {
      BoundBeforeOnes(front[1..], x, tail);
      assert all[1..] == front[1..] + [x] + tail;
      assert front + [x + 1] == [front[0]] + (front[1..] + [x + 1]);
    }
  }

  method PrefixUpperBound(prefix: Bytes) returns (u: Option<Bytes>)
    ensures u == UpperBound(prefix)
  {
    var i := |prefix| - 1;
    while i >= 0
      invariant -1 <= i < |prefix|
      invariant AllOnes(prefix[i + 1..])
    {
      if prefix[i] != 255 {
        BoundBeforeOnes(prefix[..i], prefix[i], prefix[i + 1..]);
        assert prefix == prefix[..i] + [prefix[i]] + prefix[i + 1..];
        return Some(prefix[..i] + [prefix[i] + 1]);
      }
      assert prefix[i..] == [prefix[i]] + prefix[i + 1..];
      i := i - 1;
    }
    assert prefix[0..] == prefix;
    NoBoundOfOnes(prefix);
    return None;
  }

  // ---------------------------------------------------------------------- the batch

  datatype BatchOp = Set(key: Bytes, value: Bytes) | Del(key: Bytes)

  function ReplayOne(s: Store, op: BatchOp): Store {
    match op case Set(k, v) => s[k := v] case Del(k) => s - {k}
  }

  /** A batch applied in order: what the engine does at commit. */
  function Replay(s: Store, batch: seq<BatchOp>): Store {
    if batch == [] then s else ReplayOne(Replay(s, batch[..|batch| - 1]), batch[|batch| - 1])
  }

  /** The overlay laid over a store: what reads consult. */
  function Overlaid(s: Store, writes: Store, deletes: set<Bytes>): Store {
    s - deletes + writes
  }

  /** The overlay and the batch say the same of every store. */
  ghost predicate Agrees(writes: Store, deletes: set<Bytes>, batch: seq<BatchOp>) {
    writes.Keys !! deletes && forall s :: Replay(s, batch) == Overlaid(s, writes, deletes)
  }

  lemma AgreesAfterSet(writes: Store, deletes: set<Bytes>, batch: seq<BatchOp>, k: Bytes, v: Bytes)
    requires Agrees(writes, deletes, batch)
    ensures Agrees(writes[k := v], deletes - {k}, batch + [Set(k, v)])
  {
    var batch' := batch + [Set(k, v)];
    assert batch'[..|batch|] == batch;
    forall s ensures Replay(s, batch') == Overlaid(s, writes[k := v], deletes - {k}) {
      assert Replay(s, batch') == Overlaid(s, writes, deletes)[k := v];
    }
  }

  lemma AgreesAfterDel(writes: Store, deletes: set<Bytes>, batch: seq<BatchOp>, k: Bytes)
    requires Agrees(writes, deletes, batch)
    ensures Agrees(writes - {k}, deletes + {k}, batch + [Del(k)])
  {
  }

  /** The overlay maps after any sequence of Put and Delete. */
  function OverlayAfter(ops: seq<BatchOp>): (Store, set<Bytes>) {
    if ops == [] then (map[], {})
    else
      var (writes, deletes) := OverlayAfter(ops[..|ops| - 1]);
      match ops[|ops| - 1]
      case Set(k, v) => (writes[k := v], deletes - {k})
      case Del(k) => (writes - {k}, deletes + {k})
  }

  /** For every sequence of Put and Delete and over every store, reading through the overlay is reading
      after replaying the batch. */
  lemma {:induction false} OverlayIsReplay(ops: seq<BatchOp>)
    ensures Agrees(OverlayAfter(ops).0, OverlayAfter(ops).1, ops)
  {
    if ops != [] {
      var front := ops[..|ops| - 1];
      OverlayIsReplay(front);
      var (writes, deletes) := OverlayAfter(front);
      assert ops == front + [ops[|ops| - 1]];
      match ops[|ops| - 1]
      case Set(k, v) => AgreesAfterSet(writes, deletes, front, k, v);
      case Del(k) => AgreesAfterDel(writes, deletes, front, k);
    }
  }

  // ---------------------------------------------------------------- the transaction

  /** The database under the transactions. */
  class Db {
    var data: Store

    constructor (init: Store)
      ensures data == init
    {
      data := init;
    }
  }

  datatype GetResult = Value(v: Bytes) | NotFound | Closed

  datatype ScanResult = Rows(it: MemIterator) | ScanClosed

  class Transaction {
    const db: Db
    const snap: Store
    var batch: seq<BatchOp>
    var writes: Store
    var deletes: set<Bytes>
    var done: bool

    ghost predicate Valid()
      reads this
    {
      Agrees(writes, deletes, batch)
    }

    /** The store as this transaction sees it: its snapshot with its batch replayed. */
    ghost function View(): Store
      reads this
    {
      Replay(snap, batch)
    }

    constructor (d: Db)
      ensures Valid() && db == d && snap == d.data && batch == [] && !done && View() == d.data
    {
      db, snap := d, d.data;
      batch, writes, deletes, done := [], map[], {}, false;
    }

    method Get(key: Bytes) returns (r: GetResult)
      requires Valid()
      ensures r.Closed? <==> done
      ensures !done ==> r == if key in View() then Value(View()[key]) else NotFound
    {
      if done { return Closed; }
      if key in deletes { return NotFound; }
      if key in writes { return Value(writes[key]); }
      r := if key in snap then Value(snap[key]) else NotFound;
    }

    method Put(key: Bytes, value: Bytes) returns (ok: bool)
      requires Valid()
      modifies this
      ensures Valid() && done == old(done) && ok == !done
      ensures batch == if ok then old(batch) + [Set(key, value)] else old(batch)
      ensures View() == if ok then old(View())[key := value] else old(View())
    {
      if done { return false; }
      assert (batch + [Set(key, value)])[..|batch|] == batch;
      AgreesAfterSet(writes, deletes, batch, key, value);
      deletes := deletes - {key};
      writes := writes[key := value];
      batch := batch + [Set(key, value)];
      ok := true;
    }

    method Delete(key: Bytes) returns (ok: bool)
      requires Valid()
      modifies this
      ensures Valid() && done == old(done) && ok == !done
      ensures batch == if ok then old(batch) + [Del(key)] else old(batch)
      ensures View() == if ok then old(View()) - {key} else old(View())
    {
      if done { return false; }
      assert (batch + [Del(key)])[..|batch|] == batch;
      AgreesAfterDel(writes, deletes, batch, key);
      writes := writes - {key};
      deletes := deletes + {key};
      batch := batch + [Del(key)];
      ok := true;
    }

    /** The merged rows: those keys of the view that have the prefix. */
    method Merge(prefix: Bytes) returns (pairs: Store)
      requires Valid()
      ensures pairs.Keys == set k | k in View() && HasPrefix(k, prefix)
      ensures forall k | k in pairs :: pairs[k] == View()[k]
    {
      var upper := PrefixUpperBound(prefix);
      pairs := map k | k in snap && !Less(k, prefix) && (upper.Some? ==> Less(k, upper.value)) :: snap[k];
      forall k ensures HasPrefix(k, prefix) <==> InRange(k, prefix) { PrefixIsRange(k, prefix); }
      pairs := pairs - set k | k in deletes && HasPrefix(k, prefix);
      pairs := pairs + map k | k in writes && HasPrefix(k, prefix) :: writes[k];
      assert View() == Overlaid(snap, writes, deletes);
    }

    /** The scan enumerates the view's keys under the prefix, in strictly ascending order. */
    method ScanPrefix(prefix: Bytes) returns (r: ScanResult)
      requires Valid()
      ensures r.ScanClosed? <==> done
      ensures r.Rows? ==>
        && fresh(r.it) && r.it.pos == 0 && |r.it.vals| == |r.it.keys| && Ascending(r.it.keys)
        && Elems(r.it.keys) == (set k | k in View() && HasPrefix(k, prefix))
        && forall i | 0 <= i < |r.it.keys| :: r.it.keys[i] in View() && r.it.vals[i] == View()[r.it.keys[i]]
    {
      if done { return ScanClosed; }
      var pairs := Merge(prefix);
      var it := new MemIterator(pairs);
      forall i | 0 <= i < |it.keys| ensures it.keys[i] in View() && it.vals[i] == View()[it.keys[i]] {
        assert it.keys[i] in Elems(it.keys);
      }
      r := Rows(it);
    }

    /** Commit replays the batch on the database as it is now, and so changes exactly the keys the
        overlay names: written ones take their value, deleted ones go, all others stay. */
    method Commit(fails: bool) returns (ok: bool)
      requires Valid()
      modifies this, db
      ensures ok <==> !old(done) && !fails
      ensures done
      ensures db.data == if ok then Replay(old(db.data), old(batch)) else old(db.data)
      ensures ok ==> forall k | k !in old(writes) && k !in old(deletes) ::
        (k in db.data <==> k in old(db.data)) && (k in db.data ==> db.data[k] == old(db.data)[k])
      ensures ok ==> forall k | k in old(writes) :: k in db.data && db.data[k] == old(writes)[k]
      ensures ok ==> forall k | k in old(deletes) :: k !in db.data
    {
      if done { return false; }
      done := true;
      if fails { return false; }
      assert Replay(db.data, batch) == Overlaid(db.data, writes, deletes);
      db.data := Replay(db.data, batch);
      ok := true;
    }

    method Rollback()
      modifies this
      ensures done
    {
      if done { return; }
      done := true;
      writes, deletes, batch := map[], {}, [];
    }
  }

  /** The materialised rows of a scan, walked once. */
  class MemIterator {
    var keys: seq<Bytes>
    var vals: seq<Bytes>
    var pos: nat

    constructor (pairs: Store)
      ensures pos == 0 && |vals| == |keys| && Ascending(keys) && Elems(keys) == pairs.Keys
      ensures forall i | 0 <= i < |keys| :: keys[i] in pairs && vals[i] == pairs[keys[i]]
    {
      var ks := Sort(pairs.Keys);
      var vs: seq<Bytes> := [];
      for i := 0 to |ks|
        invariant |vs| == i
        invariant forall j | 0 <= j < i :: ks[j] in pairs && vs[j] == pairs[ks[j]]
      {
        assert ks[i] in Elems(ks);
        vs := vs + [pairs[ks[i]]];
      }
      keys, vals, pos := ks, vs, 0;
    }

    method Next() returns (row: Option<(Bytes, Bytes)>)
      requires |vals| == |keys|
      modifies this
      ensures keys == old(keys) && vals == old(vals)
      ensures if old(pos) < |keys| then row == Some((keys[old(pos)], vals[old(pos)])) && pos == old(pos) + 1
              else row == None && pos == old(pos)
    {
      if pos >= |keys| { return None; }
      row := Some((keys[pos], vals[pos]));
      pos := pos + 1;
    }
  }
}
