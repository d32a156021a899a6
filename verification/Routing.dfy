/** Which replicas an operation on a unit fans out to while members join or drain, and the replica
    count its write ack bar is held at. */
module Routing {
  import opened Basics

  type Id = string

  // ----------------------------------------------------- appending what is new

  /** `xs` appended to `acc` one by one, skipping entries whose key is already there. */
  ghost function AddNew<T(!new), K>(acc: seq<T>, xs: seq<T>, key: T -> K): seq<T> {
    if xs == [] then acc else AddOne(AddNew(acc, xs[..|xs| - 1], key), xs[|xs| - 1], key)
  }

  ghost function AddOne<T(!new), K>(acc: seq<T>, x: T, key: T -> K): seq<T> {
    if HasKey(acc, key(x), key) then acc else acc + [x]
  }

  lemma AddNewStep<T(!new), K>(acc: seq<T>, xs: seq<T>, key: T -> K, i: nat)
    requires i < |xs|
    ensures AddNew(acc, xs[..i + 1], key) == AddOne(AddNew(acc, xs[..i], key), xs[i], key)
  {
    assert xs[..i + 1][..i] == xs[..i];
  }

  ghost predicate HasKey<T(!new), K>(q: seq<T>, k: K, key: T -> K) {
    exists i | 0 <= i < |q| :: key(q[i]) == k
  }

  ghost predicate DistinctKeys<T(!new), K>(q: seq<T>, key: T -> K) {
    forall i, j | 0 <= i < j < |q| :: key(q[i]) != key(q[j])
  }

  lemma {:induction false} AddNewSpec<T(!new), K>(acc: seq<T>, xs: seq<T>, key: T -> K)
    ensures acc <= AddNew(acc, xs, key)
    ensures forall k :: HasKey(AddNew(acc, xs, key), k, key) <==> HasKey(acc, k, key) || HasKey(xs, k, key)
    ensures DistinctKeys(acc, key) ==> DistinctKeys(AddNew(acc, xs, key), key)
    ensures forall x | x in AddNew(acc, xs, key) :: x in acc || (x in xs && !HasKey(acc, key(x), key))
  {
    if xs != [] {
      var front, x := xs[..|xs| - 1], xs[|xs| - 1];
      AddNewSpec(acc, front, key);
      var mid, out := AddNew(acc, front, key), AddNew(acc, xs, key);
      assert forall i | 0 <= i < |mid| :: out[i] == mid[i];
      forall k
        ensures HasKey(xs, k, key) <==> HasKey(front, k, key) || key(x) == k
        ensures HasKey(out, k, key) <==> HasKey(mid, k, key) || key(x) == k
      {
        if HasKey(front, k, key) {
          var i :| 0 <= i < |front| && key(front[i]) == k;
          assert key(xs[i]) == k;
        }
        if HasKey(mid, k, key) {
          var i :| 0 <= i < |mid| && key(mid[i]) == k;
          assert key(out[i]) == k;
        }
        if key(x) == k && !HasKey(mid, k, key) { assert key(out[|mid|]) == k; }
      }
    }
  }

  // ------------------------------------------------------------- decide.Route

  datatype CurrentChoice = CurrentFullRing | CurrentJoinerExcluded

  datatype PendingChoice = PendingFullRing | PendingDrainerExcluded

  /** One unit's three candidate placements. */
  datatype Placements = Placements(full: seq<Id>, joinerExcluded: seq<Id>, drainerExcluded: seq<Id>)

  datatype Decision = Decision(
    current: CurrentChoice, pending: PendingChoice, stableR: nat, inTransition: bool, routed: seq<Id>)

  function CurrentReplicaSet(fullRing: nat, joinerExcluded: nat, r: int): CurrentChoice {
    if joinerExcluded < r || joinerExcluded < fullRing then CurrentFullRing else CurrentJoinerExcluded
  }

  function PendingReplicaSet(drainerExcluded: nat): PendingChoice {
    if drainerExcluded == 0 then PendingFullRing else PendingDrainerExcluded
  }

  function CurrentOf<T>(c: CurrentChoice, full: seq<T>, joinerExcluded: seq<T>): seq<T> {
    if c == CurrentFullRing then full else joinerExcluded
  }

  function PendingOf<T>(c: PendingChoice, full: seq<T>, drainerExcluded: seq<T>): seq<T> {
    if c == PendingFullRing then full else drainerExcluded
  }

  method SameMembers(a: seq<Id>, b: seq<Id>) returns (same: bool)
    ensures same <==> |a| == |b| && Elems(a) <= Elems(b)
  {
    if |a| != |b| { return false; }
    for i := 0 to |a|
      invariant forall k | 0 <= k < i :: a[k] in b
    {
      if a[i] !in b {
        assert a[i] in Elems(a) && a[i] !in Elems(b);
        return false;
      }
    }
    return true;
  }

  function OfId(x: Id): Id {
    x
  }

  method UnionMembers(current: seq<Id>, pending: seq<Id>) returns (out: seq<Id>)
    ensures out == AddNew(current, pending, OfId)
  {
    out := current;
    for i := 0 to |pending|
      invariant out == AddNew(current, pending[..i], OfId)
    {
      assert pending[..i + 1][..i] == pending[..i];
      assert pending[i] in out <==> HasKey(out, OfId(pending[i]), OfId);
      if pending[i] !in out { out := out + [pending[i]]; }
    }
    assert pending[..|pending|] == pending;
  }

  /** What `decide.Route` computes, branch by branch. */
  ghost predicate IsDecision(p: Placements, r: int, d: Decision) {
    && d.current == CurrentReplicaSet(|p.full|, |p.joinerExcluded|, r)
    && d.pending == PendingReplicaSet(|p.drainerExcluded|)
    && var current := CurrentOf(d.current, p.full, p.joinerExcluded);
       var pending := PendingOf(d.pending, p.full, p.drainerExcluded);
    && d.stableR == |current|
    && (d.inTransition <==> !(|current| == |pending| && Elems(current) <= Elems(pending)))
    && d.routed == if d.inTransition then AddNew(current, pending, OfId) else current
  }

  method Route(p: Placements, r: int) returns (d: Decision)
    ensures IsDecision(p, r, d)
  {
    var c, q := CurrentReplicaSet(|p.full|, |p.joinerExcluded|, r), PendingReplicaSet(|p.drainerExcluded|);
    var current := CurrentOf(c, p.full, p.joinerExcluded);
    var pending := PendingOf(q, p.full, p.drainerExcluded);
    var same := SameMembers(current, pending);
    if same { return Decision(c, q, |current|, false, current); }
    var routed := UnionMembers(current, pending);
    d := Decision(c, q, |current|, true, routed);
  }

  // --------------------------------------------------------- what it promises

  lemma {:induction false} DistinctCount<T>(q: seq<T>)
    requires Distinct(q)
    ensures |Elems(q)| == |q|
  {
    if q != [] {
      var front, x := q[..|q| - 1], q[|q| - 1];
      DistinctCount(front);
      assert Elems(q) == Elems(front) + {x};
      assert x !in front;
    }
  }

  lemma SubsetOfEqualSize<T>(a: set<T>, b: set<T>)
    requires a <= b && |a| == |b|
    ensures a == b
  {
    assert b == a + (b - a);
    assert |b - a| == 0;
  }

  /** The Go-side shortcut: equal lengths and one-way containment is set equality on placements. */
  lemma SameMembersIff(a: seq<Id>, b: seq<Id>)
    requires Distinct(a) && Distinct(b)
    ensures |a| == |b| && Elems(a) <= Elems(b) <==> Elems(a) == Elems(b)
  {
    DistinctCount(a);
    DistinctCount(b);
    if |a| == |b| && Elems(a) <= Elems(b) { SubsetOfEqualSize(Elems(a), Elems(b)); }
  }

  datatype Consistency = WriteOne | WriteQuorum | WriteAll

  function RequiredWriteAcks(wc: Consistency, r: nat): nat {
    match wc case WriteOne => 1 case WriteAll => r case WriteQuorum => r / 2 + 1
  }

  /** For all duplicate-free placements and every r: the routed list is duplicate-free, leads with all
      of CURRENT in order, covers exactly CURRENT and PENDING, is a widening exactly when the two
      differ as sets, and the ack bar is never lower than over the full ring. */
  lemma RouteIsSound(p: Placements, r: int, d: Decision, wc: Consistency)
    requires Distinct(p.full) && Distinct(p.joinerExcluded) && Distinct(p.drainerExcluded)
    requires IsDecision(p, r, d)
    ensures var current := CurrentOf(d.current, p.full, p.joinerExcluded);
            var pending := PendingOf(d.pending, p.full, p.drainerExcluded);
            && Distinct(d.routed) && current <= d.routed
            && Elems(d.routed) == Elems(current) + Elems(pending)
            && (d.inTransition <==> Elems(current) != Elems(pending))
            && d.stableR >= |p.full| && (d.stableR >= r || current == p.full)
            && RequiredWriteAcks(wc, d.stableR) >= RequiredWriteAcks(wc, |p.full|)
  {
    var current := CurrentOf(d.current, p.full, p.joinerExcluded);
    var pending := PendingOf(d.pending, p.full, p.drainerExcluded);
    SameMembersIff(current, pending);
    if d.inTransition {
      AddNewSpec(current, pending, OfId);
      assert DistinctKeys(current, OfId);
      forall x ensures x in Elems(d.routed) <==> x in Elems(current) + Elems(pending) {
        HasKeyIsMembership(d.routed, x);
        HasKeyIsMembership(current, x);
        HasKeyIsMembership(pending, x);
      }
      assert forall i, j | 0 <= i < j < |d.routed| :: OfId(d.routed[i]) != OfId(d.routed[j]);
    }
  }

  /** When a decision looks past the joiners: exactly when leaving them out costs no holder and keeps
      `r` of them. When it looks past the drainers: exactly when somebody remains. */
  lemma ExcludesIff(p: Placements, r: int, d: Decision)
    requires IsDecision(p, r, d)
    ensures var current := CurrentOf(d.current, p.full, p.joinerExcluded);
            && current == (if |p.joinerExcluded| >= |p.full| && |p.joinerExcluded| >= r then p.joinerExcluded
                           else p.full)
            && d.stableR == |current|
    ensures var pending := PendingOf(d.pending, p.full, p.drainerExcluded);
            if p.drainerExcluded != [] then pending == p.drainerExcluded else pending == p.full
    ensures d.current == CurrentJoinerExcluded <==> |p.joinerExcluded| >= |p.full| && |p.joinerExcluded| >= r
    ensures d.pending == PendingDrainerExcluded <==> p.drainerExcluded != []
  {
  }

  /** What the ack bars buy over `r` replicas: two quorums share one, all means every one, one means
      some one, and no bar asks for more than there are. */
  lemma BarsBuy(wc: Consistency, replicas: set<Id>, a: set<Id>, b: set<Id>)
    requires a <= replicas && b <= replicas && replicas != {}
    requires |a| >= RequiredWriteAcks(wc, |replicas|) && |b| >= RequiredWriteAcks(wc, |replicas|)
    ensures wc == WriteQuorum ==> a * b != {}
    ensures wc == WriteAll ==> a == replicas
    ensures a != {} && RequiredWriteAcks(wc, |replicas|) <= |replicas|
  {
    if a * b == {} {
      assert |a + b| == |a| + |b|;
      SubsetSize(a + b, replicas);
    }
    SubsetSize(a, replicas);
    if wc == WriteAll { SubsetOfEqualSize(a, replicas); }
  }

  lemma SubsetSize<T>(a: set<T>, b: set<T>)
    requires a <= b
    ensures |a| <= |b|
  {
    assert b == a + (b - a);
  }

  lemma HasKeyIsMembership(q: seq<Id>, x: Id)
    ensures HasKey(q, x, OfId) <==> x in Elems(q)
  {
  }
}
