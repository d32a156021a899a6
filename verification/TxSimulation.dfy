/** A committed transaction is an atomic one. A closure is any deterministic strategy: what it does
    next is a function of the answers it has had. It is run twice, once over the transaction buffer
    against a cluster that changes under it at every step, and once alone on a single store. */
module TxSimulation {
  import opened Basics
  import opened Envelope
  import opened ApplyIfNewer
  import opened CommitCas
  import opened CasRefinement
  import opened ClusterTx

  datatype Op = DoGet(key: Bytes) | DoWrite(w: WriteOp) | Return(result: Bytes)

  type Closure = seq<Answer> -> Op

  /** The cluster as a routed read issued at each step would see it; None is unreachable. */
  type World = nat -> Option<Store>

  /** One closure run: the closure, the layout at each step, what it is pinned to at the start, what its
      reads went through, and how many steps it took. */
  datatype Client = Client(prog: Closure, layout: nat -> Layout, pin: Option<Pin>, world: World, n: nat)

  function Lookup(s: Store, k: Bytes): Routed {
    if k in s then Value(s[k]) else Absent
  }

  function RoutedRead(view: Option<Store>, k: Bytes): Routed {
    if view.None? then Down else Lookup(view.value, k)
  }

  // ------------------------------------------------------------- the two runs

  datatype Buffered = Buffered(tx: Tx, answers: seq<Answer>)

  /** The closure after `n` steps over the buffer. A returned closure stays put. */
  function RunBuffered(c: Client, n: nat): Buffered {
    if n == 0 then Buffered(Tx(c.pin, [], []), [])
    else
      var b := RunBuffered(c, n - 1);
      match c.prog(b.answers)
      case Return(_) => b
      case DoGet(k) =>
        var (tx, a) := GetStep(b.tx, c.layout(n - 1), k, RoutedRead(c.world(n - 1), k));
        Buffered(tx, b.answers + [a])
      case DoWrite(w) =>
        var (tx, a) := WriteStep(b.tx, c.layout(n - 1), w);
        Buffered(tx, b.answers + [a])
  }

  datatype Alone = Alone(pin: Option<Pin>, store: Store, answers: seq<Answer>)

  /** The closure after `n` steps run atomically on `s`, under the shard guard of the first layout. */
  function RunAlone(c: Client, s: Store, n: nat): Alone {
    if n == 0 then Alone(c.pin, s, [])
    else
      var x := RunAlone(c, s, n - 1);
      match c.prog(x.answers)
      case Return(_) => x
      case DoGet(k) => AloneStep(x, c.layout(0), k, x.store, AsAnswer(Lookup(x.store, k)))
      case DoWrite(w) => AloneStep(x, c.layout(0), w.key, RawOne(x.store, w), Stored)
  }

  function AloneStep(x: Alone, lay: Layout, k: Bytes, store: Store, a: Answer): Alone {
    var pin := if x.pin.None? then Some(Pin(Place(lay, k), k)) else x.pin;
    match Guarded(x.pin, lay, k)
    case None => Alone(pin, store, x.answers + [a])
    case Some(refusal) => Alone(pin, x.store, x.answers + [refusal])
  }

  // ----------------------------------------------- steps the cluster did not disturb

  function KeyOf(op: Op): Bytes
    requires !op.Return?
  {
    match op case DoGet(k) => k case DoWrite(w) => w.key
  }

  /** Step `m` went as if nothing moved: the layout change, if any, did not alter the guard's verdict; a
      read that went to the cluster was answered; and a key read again showed what was recorded. */
  ghost predicate AgreedAt(c: Client, m: nat) {
    var b := RunBuffered(c, m);
    var op := c.prog(b.answers);
    !op.Return? ==>
      && Guarded(b.tx.pin, c.layout(m), KeyOf(op)) == Guarded(b.tx.pin, c.layout(0), KeyOf(op))
      && (op.DoGet? && Guarded(b.tx.pin, c.layout(m), op.key).None? && FindOp(b.tx.ops, op.key).None? ==>
            c.world(m).Some?
            && (FindCheck(b.tx.checks, op.key).Some? ==>
                  FindCheck(b.tx.checks, op.key).value == AsCheck(op.key, RoutedRead(c.world(m), op.key))))
  }

  ghost predicate Agreed(c: Client, n: nat) {
    forall m: nat | m < n :: AgreedAt(c, m)
  }

  /** Only the first step of a closure can find it unpinned. */
  lemma {:induction false} PinnedAfterFirst(c: Client, m: nat)
    requires m > 0
    ensures RunBuffered(c, m).tx.pin.Some? || c.prog(RunBuffered(c, m).answers).Return?
  {
    if m > 1 { PinnedAfterFirst(c, m - 1); }
  }

  // ----------------------------------------------------------- buffer lemmas

  lemma {:induction false} FindOpSnoc(ops: seq<WriteOp>, w: WriteOp, k: Bytes)
    ensures FindOp(ops + [w], k)
            == if FindOp(ops, k).Some? then FindOp(ops, k) else if w.key == k then Some(w) else None
  {
    if |ops| > 0 {
      FindOpSnoc(ops[1..], w, k);
      assert (ops + [w])[1..] == ops[1..] + [w];
    }
  }

  lemma {:induction false} FindOpIffPresent(ops: seq<WriteOp>, k: Bytes)
    ensures FindOp(ops, k).Some? <==> exists i :: 0 <= i < |ops| && ops[i].key == k
    ensures FindOp(ops, k).Some? ==> FindOp(ops, k).value in ops && FindOp(ops, k).value.key == k
  {
    if |ops| > 0 && ops[0].key != k {
      FindOpIffPresent(ops[1..], k);
      if i :| 0 <= i < |ops| && ops[i].key == k { assert ops[1..][i - 1].key == k; }
    }
  }

  /** What a key holds after the write-set: its buffered op, or what it held before. */
  function AfterOp(s: Store, op: Option<WriteOp>, k: Bytes): Routed {
    match op
    case None => Lookup(s, k)
    case Some(Put(_, v)) => Value(v)
    case Some(Delete(_)) => Absent
  }

  lemma {:induction false} RawAllLookup(s: Store, ops: seq<WriteOp>, k: Bytes)
    requires DistinctKeys(ops)
    ensures Lookup(RawAll(s, ops), k) == AfterOp(s, FindOp(ops, k), k)
  {
    if |ops| > 0 {
      var front, last := ops[..|ops| - 1], ops[|ops| - 1];
      RawAllLookup(s, front, k);
      assert ops == front + [last];
      FindOpSnoc(front, last, k);
      FindOpIffPresent(front, k);
    }
  }

  lemma {:induction false} BufferOpFind(ops: seq<WriteOp>, w: WriteOp, k: Bytes)
    ensures FindOp(BufferOp(ops, w), k) == if k == w.key then Some(w) else FindOp(ops, k)
  {
    if |ops| > 0 && ops[0].key != w.key {
      BufferOpFind(ops[1..], w, k);
    }
  }

  lemma {:induction false} BufferOpDistinct(ops: seq<WriteOp>, w: WriteOp)
    requires DistinctKeys(ops)
    ensures DistinctKeys(BufferOp(ops, w))
    ensures forall x | x in BufferOp(ops, w) :: x == w || x in ops
  {
    if |ops| > 0 && ops[0].key != w.key {
      BufferOpDistinct(ops[1..], w);
      var rest := BufferOp(ops[1..], w);
      forall j | 0 <= j < |rest| ensures rest[j].key != ops[0].key {
        if rest[j] != w { assert rest[j] in ops[1..]; }
      }
    }
  }

  /** Buffering a write and writing it are the same. */
  lemma BufferedWriteLands(s: Store, ops: seq<WriteOp>, w: WriteOp)
    requires DistinctKeys(ops)
    ensures RawAll(s, BufferOp(ops, w)) == RawOne(RawAll(s, ops), w)
  {
    var a, b := RawAll(s, BufferOp(ops, w)), RawOne(RawAll(s, ops), w);
    BufferOpDistinct(ops, w);
    forall k ensures Lookup(a, k) == Lookup(b, k) {
      RawAllLookup(s, BufferOp(ops, w), k);
      RawAllLookup(s, ops, k);
      BufferOpFind(ops, w, k);
    }
    SameLookups(a, b);
  }

  lemma SameLookups(a: Store, b: Store)
    requires forall k :: Lookup(a, k) == Lookup(b, k)
    ensures a == b
  {
    forall k ensures k in a <==> k in b { assert Lookup(a, k) == Lookup(b, k); }
    forall k | k in a ensures a[k] == b[k] { assert Lookup(a, k) == Lookup(b, k); }
  }

  // ------------------------------------------------------------ run structure

  /** The buffer only grows: read-checks are appended, write keys stay distinct. */
  lemma {:induction false} BufferShape(c: Client, n: nat)
    ensures DistinctKeys(RunBuffered(c, n).tx.ops)
    ensures n > 0 ==>
              && RunBuffered(c, n - 1).tx.checks <= RunBuffered(c, n).tx.checks
              && RunBuffered(c, n - 1).answers <= RunBuffered(c, n).answers
  {
    if n > 0 {
      BufferShape(c, n - 1);
      var b := RunBuffered(c, n - 1);
      var op := c.prog(b.answers);
      if op.DoWrite? { BufferOpDistinct(b.tx.ops, op.w); }
    }
  }

  /** Answers, once given, stay, in both runs. */
  lemma {:induction false} RunsGrow(c: Client, s: Store, m: nat, n: nat)
    requires m <= n
    ensures RunBuffered(c, m).tx.checks <= RunBuffered(c, n).tx.checks
    ensures RunBuffered(c, m).answers <= RunBuffered(c, n).answers
    ensures RunAlone(c, s, m).answers <= RunAlone(c, s, n).answers
    decreases n
  {
    if m < n {
      BufferShape(c, n);
      RunsGrow(c, s, m, n - 1);
    }
  }

  lemma PrefixValid(s: Store, a: seq<ReadCheck>, b: seq<ReadCheck>)
    requires a <= b && Validate(s, b, false) == Valid
    ensures Validate(s, a, false) == Valid
  {
  }

  // ---------------------------------------------------------------- simulation

  /** The two runs are in step: same answers, same pin, and the buffered writes land on `s` where the
      atomic run already is. */
  ghost predicate InStep(c: Client, s: Store, n: nat) {
    var b, x := RunBuffered(c, n), RunAlone(c, s, n);
    b.answers == x.answers && b.tx.pin == x.pin && RawAll(s, b.tx.ops) == x.store
  }

  /** A validated read answers what the store it was validated against holds. */
  lemma ValidatedAnswer(s: Store, checks: seq<ReadCheck>, k: Bytes, c: ReadCheck)
    requires Validate(s, checks, false) == Valid && c in checks && c.key == k
    ensures AsCheck(k, Lookup(s, k)) == c
  {
  }

  lemma StepInStep(c: Client, s: Store, n: nat)
    requires InStep(c, s, n) && AgreedAt(c, n)
    requires Validate(s, RunBuffered(c, n + 1).tx.checks, false) == Valid
    ensures InStep(c, s, n + 1)
  {
    var b, b' := RunBuffered(c, n), RunBuffered(c, n + 1);
    BufferShape(c, n);
    if n > 0 { PinnedAfterFirst(c, n); }
    match c.prog(b.answers)
    case Return(_) =>
    case DoWrite(w) => BufferedWriteLands(s, b.tx.ops, w);
    case DoGet(k) =>
      RawAllLookup(s, b.tx.ops, k);
      if Guarded(b.tx.pin, c.layout(n), k).None? && FindOp(b.tx.ops, k).None? {
        var c := AsCheck(k, RoutedRead(c.world(n), k));
        assert b'.tx.checks == RecordCheck(b.tx.checks, c);
        FindCheckIffPresent(b.tx.checks, k);
        assert c in b'.tx.checks;
        ValidatedAnswer(s, b'.tx.checks, k, c);
      }
  }

  lemma {:induction false} AgreedRunsInStep(c: Client, s: Store, n: nat)
    requires Agreed(c, n)
    requires Validate(s, RunBuffered(c, n).tx.checks, false) == Valid
    ensures InStep(c, s, n)
  {
    if n > 0 {
      BufferShape(c, n);
      PrefixValid(s, RunBuffered(c, n - 1).tx.checks, RunBuffered(c, n).tx.checks);
      AgreedRunsInStep(c, s, n - 1);
      assert AgreedAt(c, n - 1);
      StepInStep(c, s, n - 1);
    }
  }

  /** At the first step that was disturbed, the buffered answer is not the atomic one. */
  lemma DisagreementShows(c: Client, s: Store, m: nat)
    requires Agreed(c, m) && !AgreedAt(c, m)
    requires Validate(s, RunBuffered(c, m).tx.checks, false) == Valid
    ensures var b, x := RunBuffered(c, m + 1), RunAlone(c, s, m + 1);
            var i := |RunBuffered(c, m).answers|;
            i < |b.answers| && i < |x.answers| && b.answers[i] != x.answers[i]
  {
    AgreedRunsInStep(c, s, m);
    var b := RunBuffered(c, m);
    var k := KeyOf(c.prog(b.answers));
    BufferShape(c, m);
    RawAllLookup(s, b.tx.ops, k);
    FindCheckIffPresent(b.tx.checks, k);
    if FindCheck(b.tx.checks, k).Some? { ValidatedAnswer(s, b.tx.checks, k, FindCheck(b.tx.checks, k).value); }
  }

  lemma {:induction false} FirstDisagreement(c: Client, n: nat) returns (m: nat)
    requires !Agreed(c, n)
    ensures m < n && Agreed(c, m) && !AgreedAt(c, m)
  {
    m := n - 1;
    if !Agreed(c, n - 1) {
      m := FirstDisagreement(c, n - 1);
    }
  }

  lemma PrefixesDiffer<T>(a: seq<T>, b: seq<T>, a': seq<T>, b': seq<T>, i: nat)
    requires a <= a' && b <= b' && i < |a| && i < |b| && a[i] != b[i]
    ensures a' != b'
  {
  }

  lemma ChecksStillValid(c: Client, s: Store, m: nat, n: nat)
    requires m <= n && Validate(s, RunBuffered(c, n).tx.checks, false) == Valid
    ensures Validate(s, RunBuffered(c, m).tx.checks, false) == Valid
  {
    RunsGrow(c, s, m, n);
    PrefixValid(s, RunBuffered(c, m).tx.checks, RunBuffered(c, n).tx.checks);
  }

  lemma DisagreementLasts(c: Client, s: Store, m: nat, later: nat, n: nat)
    requires later == m + 1 <= n && Agreed(c, m) && !AgreedAt(c, m)
    requires Validate(s, RunBuffered(c, m).tx.checks, false) == Valid
    ensures RunBuffered(c, n).answers != RunAlone(c, s, n).answers
  {
    DisagreementShows(c, s, m);
    RunsGrow(c, s, later, n);
    PrefixesDiffer(RunBuffered(c, later).answers, RunAlone(c, s, later).answers,
                   RunBuffered(c, n).answers, RunAlone(c, s, n).answers, |RunBuffered(c, m).answers|);
  }

  /** The simulation. Against any changing cluster and layout, if the read-set validates in `s`, the
      closure was answered as it would have been running alone on `s` exactly when its reads that went
      to the cluster were all answered, its repeated reads agreed, and no layout change altered a
      guard's verdict; and then applying its write-set to `s` is what running alone on `s` does. */
  lemma CommittedIsAtomicIff(c: Client, s: Store, n: nat)
    requires Validate(s, RunBuffered(c, n).tx.checks, false) == Valid
    ensures Agreed(c, n)
            <==> RunBuffered(c, n).answers == RunAlone(c, s, n).answers
    ensures Agreed(c, n)
            ==> RawAll(s, RunBuffered(c, n).tx.ops) == RunAlone(c, s, n).store
  {
    if Agreed(c, n) {
      AgreedRunsInStep(c, s, n);
    } else {
      var m := FirstDisagreement(c, n);
      ChecksStillValid(c, s, m, n);
      DisagreementLasts(c, s, m, m + 1, n);
    }
  }

  // ----------------------------------------------------- what a transaction may touch

  /** The closure was let through to the key. */
  predicate LetThrough(a: Answer) {
    a.Got? || a == Missing || a == Stored || a == Unreachable
  }

  /** Where the key lies: its unit in multi-backend mode, its owner otherwise. */
  predicate LiesIn(lay: Layout, k: Bytes, place: int) {
    if lay.Units? then lay.unitOf(k) == place else lay.ownerOf(k) == place
  }

  /** What step `m` of a run is told, by where its key lies at that moment: it is let through exactly
      when the key is in the unit, or with the owner, the transaction is pinned to; elsewhere it is told
      to retry exactly when, in multi-backend mode, the key shards like the pinned one. The first key
      pins. */
  lemma LetThroughIff(c: Client, m: nat)
    requires !c.prog(RunBuffered(c, m).answers).Return?
    ensures
      var b, t, lay := RunBuffered(c, m), RunBuffered(c, m + 1), c.layout(m);
      var k := KeyOf(c.prog(b.answers));
      && |t.answers| == |b.answers| + 1
      && t.tx.pin.Some? && (b.tx.pin.Some? ==> t.tx.pin == b.tx.pin)
      && var a, pin := t.answers[|b.answers|], t.tx.pin.value;
      && (b.tx.pin.None? ==> pin.key == k && LiesIn(lay, k, pin.place))
      && (LetThrough(a) <==> LiesIn(lay, k, pin.place))
      && (a == Moved <==> !LiesIn(lay, k, pin.place) && lay.Units? && lay.shardOf(k) == lay.shardOf(pin.key))
      && (a == CrossShard <==>
            !LiesIn(lay, k, pin.place) && (lay.Units? ==> lay.shardOf(k) != lay.shardOf(pin.key)))
  {
  }

  /** What a step that is let through is told: its own last write of the key if there is one, else what
      the cluster holds at that moment; a write is accepted. */
  lemma LetThroughIsTold(c: Client, m: nat)
    requires !c.prog(RunBuffered(c, m).answers).Return? && |RunBuffered(c, m + 1).answers| > |RunBuffered(c, m).answers|
    requires LetThrough(RunBuffered(c, m + 1).answers[|RunBuffered(c, m).answers|])
    ensures
      var b := RunBuffered(c, m);
      var a := RunBuffered(c, m + 1).answers[|b.answers|];
      match c.prog(b.answers)
      case Return(_) => false
      case DoWrite(_) => a == Stored
      case DoGet(k) =>
        match FindOp(b.tx.ops, k)
        case Some(Put(_, v)) => a == Got(v)
        case Some(Delete(_)) => a == Missing
        case None =>
          match c.world(m)
          case None => a == Unreachable
          case Some(store) => a == if k in store then Got(store[k]) else Missing
  {
  }

  /** The key is read or written by the transaction. */
  ghost predicate Touches(tx: Tx, k: Bytes) {
    (exists r | r in tx.checks :: r.key == k) || Writes(tx.ops, k)
  }

  /** A step adds at most its own key, and only when it is let through. */
  lemma StepTouches(c: Client, m: nat, k: Bytes)
    requires Touches(RunBuffered(c, m + 1).tx, k)
    ensures
      var b, t := RunBuffered(c, m), RunBuffered(c, m + 1);
      || Touches(b.tx, k)
      || (!c.prog(b.answers).Return? && k == KeyOf(c.prog(b.answers))
          && |t.answers| > |b.answers| && LetThrough(t.answers[|b.answers|]))
  {
    var b, t := RunBuffered(c, m), RunBuffered(c, m + 1);
    BufferShape(c, m);
    match c.prog(b.answers)
    case Return(_) =>
    case DoGet(j) => if r :| r in t.tx.checks && r.key == k { assert r in b.tx.checks || k == j; }
    case DoWrite(w) =>
      BufferOpDistinct(b.tx.ops, w);
      if x :| x in t.tx.ops && x.key == k { assert x == w || x in b.tx.ops; }
  }

  lemma TouchStep(c: Client, m: nat, k: Bytes)
    requires Touches(RunBuffered(c, m + 1).tx, k)
    ensures
      var b, t := RunBuffered(c, m).tx, RunBuffered(c, m + 1).tx;
      || (Touches(b, k) && (b.pin.Some? ==> t.pin == b.pin))
      || (t.pin.Some? && LiesIn(c.layout(m), k, t.pin.value.place))
  {
    StepTouches(c, m, k);
    if !c.prog(RunBuffered(c, m).answers).Return? { LetThroughIff(c, m); }
  }

  /** Every key a transaction reads from the cluster or writes lay in the place it is pinned to at the
      step that touched it. */
  lemma {:induction false} TouchedInPlace(c: Client, n: nat, k: Bytes) returns (m: nat)
    requires Touches(RunBuffered(c, n).tx, k)
    ensures m < n && RunBuffered(c, n).tx.pin.Some?
    ensures LiesIn(c.layout(m), k, RunBuffered(c, n).tx.pin.value.place)
  {
    if n > 0 {
      TouchStep(c, n - 1, k);
      m := n - 1;
      if Touches(RunBuffered(c, n - 1).tx, k) { m := TouchedInPlace(c, n - 1, k); }
    }
  }

  /** Hence while the layout does not change, everything it ships lies in one place. */
  lemma ShipsToOnePlace(c: Client, n: nat, lay: Layout, k: Bytes)
    requires forall m: nat | m < n :: c.layout(m) == lay
    requires Touches(RunBuffered(c, n).tx, k)
    ensures RunBuffered(c, n).tx.pin.Some? && LiesIn(lay, k, RunBuffered(c, n).tx.pin.value.place)
  {
    var _ := TouchedInPlace(c, n, k);
  }

  // ------------------------------------------------------------ serial history

  ghost function Buffer(c: Client): Tx {
    RunBuffered(c, c.n).tx
  }

  ghost predicate WellBehaved(c: Client) {
    Agreed(c, c.n)
  }

  /** What a client ships. */
  ghost function Shipment(c: Client): Submitted {
    Submitted(Buffer(c).checks, Buffer(c).ops)
  }

  ghost predicate IsTaken(s: Store, c: Client) {
    GateOf(s, Shipment(c), false).Pass?
  }

  /** The owner's store after a commit that it takes. */
  ghost function AfterCommit(s: Store, c: Client): Store {
    CommittedStore(s, 0, Buffer(c).checks, Buffer(c).ops, false, 0, [])
  }

  /** The owner's store after the commits, each taken or refused by the gate. */
  ghost function CommitInOrder(s: Store, cs: seq<Client>): Store
    decreases |cs|
  {
    if |cs| == 0 then s
    else CommitInOrder(if IsTaken(s, cs[0]) then AfterCommit(s, cs[0]) else s, cs[1..])
  }

  /** The same closures run one at a time, each alone on the store the previous ones left. */
  ghost function RunInOrder(s: Store, cs: seq<Client>): Store
    decreases |cs|
  {
    if |cs| == 0 then s
    else RunInOrder(if IsTaken(s, cs[0]) then RunAlone(cs[0], s, cs[0].n).store else s, cs[1..])
  }

  /** Every client whose commit passes at its turn behaved well. Nothing is asked of the clients that are
      refused. */
  ghost predicate TakenBehavedWell(s: Store, cs: seq<Client>)
    decreases |cs|
  {
    |cs| > 0 ==>
      && (IsTaken(s, cs[0]) ==> WellBehaved(cs[0]))
      && TakenBehavedWell(if IsTaken(s, cs[0]) then AfterCommit(s, cs[0]) else s, cs[1..])
  }

  /** A commit is taken exactly when everything the closure was told by the cluster is still so. */
  lemma TakenIff(s: Store, c: Client)
    ensures IsTaken(s, c) <==> forall r | r in Buffer(c).checks :: Holds(s, r, false)
    ensures IsTaken(s, c) ==> Validate(s, Buffer(c).checks, false) == Valid
  {
    PassesIff(s, Buffer(c).checks, Buffer(c).ops, false, true, Smooth);
    ValidIffAllHold(s, Buffer(c).checks, false);
  }

  /** No update is lost: however the clients' reads interleaved with one another's commits, and whatever
      the refused ones did, the store is what running the committed closures one after another, in
      commit order, would leave. */
  lemma {:induction false} CommitsAreSerial(s: Store, cs: seq<Client>)
    requires TakenBehavedWell(s, cs)
    ensures CommitInOrder(s, cs) == RunInOrder(s, cs)
    decreases |cs|
  {
    if |cs| > 0 {
      var c := cs[0];
      TakenIff(s, c);
      if IsTaken(s, c) {
        CommittedIsAtomicIff(c, s, c.n);
        CommitsAreSerial(AfterCommit(s, c), cs[1..]);
      } else {
        CommitsAreSerial(s, cs[1..]);
      }
    }
  }

  /** What the clients ship, in commit order. */
  ghost function Shipped(cs: seq<Client>): (q: seq<Submitted>)
    ensures |q| == |cs| && forall i | 0 <= i < |cs| :: q[i] == Shipment(cs[i])
  {
    seq(|cs|, i requires 0 <= i < |cs| => Shipment(cs[i]))
  }

  lemma {:induction false} RunRawIsCommitInOrder(s: Store, cs: seq<Client>)
    ensures RunRaw(s, Shipped(cs)).0 == CommitInOrder(s, cs)
    decreases |cs|
  {
    if |cs| > 0 {
      assert Shipped(cs)[1..] == Shipped(cs[1..]);
      RunRawIsCommitInOrder(if IsTaken(s, cs[0]) then AfterCommit(s, cs[0]) else s, cs[1..]);
    }
  }

  /** The same for the replicated owner: whatever its commits draw, the envelope store it ends with
      stands for what running the committed closures one after another on the raw store leaves. */
  lemma SealedCommitsAreSerial(e: Store, cs: seq<Client>, draws: seq<Draw>)
    requires Clean(e) && |draws| == |cs|
    requires TakenBehavedWell(Abs(e), cs) && TakenSealWell(e, Shipped(cs), draws)
    ensures Clean(RunSealed(e, Shipped(cs), draws).0)
    ensures Abs(RunSealed(e, Shipped(cs), draws).0) == RunInOrder(Abs(e), cs)
  {
    SealedRunRefinesRaw(e, Shipped(cs), draws);
    RunRawIsCommitInOrder(Abs(e), cs);
    CommitsAreSerial(Abs(e), cs);
  }
}
