/** The two resolvers that turn the routing decision back into members: the plain one by member, and
    the position-addressed one that the CAS fan-out folds to one batch per member. */
module PendingRoute {
  import opened Basics
  import opened Routing
  import CommitCas

  /** A coordinator node: its id, and the address that only this layer sees. */
  datatype Member = Member(id: Id, addr: string)

  function IdOf(m: Member): Id {
    m.id
  }

  function Ids(ms: seq<Member>): (q: seq<Id>)
    ensures |q| == |ms| && forall i | 0 <= i < |ms| :: q[i] == ms[i].id
  {
    seq(|ms|, i requires 0 <= i < |ms| => ms[i].id)
  }

  datatype UnitPlacements = UnitPlacements(full: seq<Member>, joinerExcluded: seq<Member>, drainerExcluded: seq<Member>)

  /** Where a unit sits over every member, and where it would sit without the joining, or without the
      draining, ones. `locate` is the ring: the members it places when a set is left out. */
  function PlacementsForUnit(locate: set<Id> -> seq<Member>, joining: set<Id>, draining: set<Id>): UnitPlacements {
    var full := locate({});
    UnitPlacements(full, if joining == {} then full else locate(joining),
                   if draining == {} then full else locate(draining))
  }

  function IdPlacements(p: UnitPlacements): Placements {
    Placements(Ids(p.full), Ids(p.joinerExcluded), Ids(p.drainerExcluded))
  }

  function Current(p: UnitPlacements, d: Decision): seq<Member> {
    CurrentOf(d.current, p.full, p.joinerExcluded)
  }

  function Pending(p: UnitPlacements, d: Decision): seq<Member> {
    PendingOf(d.pending, p.full, p.drainerExcluded)
  }

  /** A placement names no member twice. */
  ghost predicate Proper(p: UnitPlacements) {
    DistinctKeys(p.full, IdOf) && DistinctKeys(p.joinerExcluded, IdOf) && DistinctKeys(p.drainerExcluded, IdOf)
  }

  // ------------------------------------------------------------ by member

  /** The first member of that id. */
  function FindIn(ms: seq<Member>, id: Id): Option<Member> {
    if ms == [] then None else if ms[0].id == id then Some(ms[0]) else FindIn(ms[1..], id)
  }

  method FindMember(ms: seq<Member>, id: Id) returns (m: Option<Member>)
    ensures m == FindIn(ms, id)
  {
    for i := 0 to |ms|
      invariant FindIn(ms, id) == FindIn(ms[i..], id)
    {
      if ms[i].id == id { return Some(ms[i]); }
    }
    return None;
  }

  /** Each id looked up in `a`, then in `b`, and dropped when neither has it. */
  function Resolve(ids: seq<Id>, a: seq<Member>, b: seq<Member>): seq<Member> {
    if ids == [] then []
    else
      var id := ids[|ids| - 1];
      var m := if FindIn(a, id).Some? then FindIn(a, id) else FindIn(b, id);
      Resolve(ids[..|ids| - 1], a, b) + (if m.Some? then [m.value] else [])
  }

  method MembersById(ids: seq<Id>, a: seq<Member>, b: seq<Member>) returns (out: seq<Member>)
    ensures out == Resolve(ids, a, b)
  {
    out := [];
    for i := 0 to |ids|
      invariant out == Resolve(ids[..i], a, b)
    {
      assert ids[..i + 1][..i] == ids[..i];
      var m := FindMember(a, ids[i]);
      if m.Some? {
        out := out + [m.value];
        continue;
      }
      m := FindMember(b, ids[i]);
      if m.Some? { out := out + [m.value]; }
    }
    assert ids[..|ids|] == ids;
  }

  lemma {:induction false} FindInSpec(ms: seq<Member>, id: Id)
    ensures FindIn(ms, id).Some? <==> HasKey(ms, id, IdOf)
    ensures FindIn(ms, id).Some? ==> FindIn(ms, id).value in ms && FindIn(ms, id).value.id == id
  {
    if ms != [] {
      var rest := ms[1..];
      FindInSpec(rest, id);
      assert forall i | 0 < i < |ms| :: ms[i] == rest[i - 1];
      if HasKey(rest, id, IdOf) {
        var i :| 0 <= i < |rest| && IdOf(rest[i]) == id;
        assert IdOf(ms[i + 1]) == id;
      }
      if ms[0].id == id { assert IdOf(ms[0]) == id; }
    }
  }

  lemma OnlyOneWith(ms: seq<Member>, a: Member, b: Member)
    requires DistinctKeys(ms, IdOf) && a in ms && b in ms && a.id == b.id
    ensures a == b
  {
  }

  /** A member taken from the union of two placements resolves back to itself. */
  lemma UnionMemberResolves(a: seq<Member>, b: seq<Member>, m: Member)
    requires DistinctKeys(a, IdOf) && DistinctKeys(b, IdOf) && m in AddNew(a, b, IdOf)
    ensures (if FindIn(a, m.id).Some? then FindIn(a, m.id) else FindIn(b, m.id)) == Some(m)
  {
    AddNewSpec(a, b, IdOf);
    FindInSpec(a, m.id);
    FindInSpec(b, m.id);
    if m in a {
      var i :| 0 <= i < |a| && a[i] == m;
      assert IdOf(a[i]) == m.id;
      OnlyOneWith(a, m, FindIn(a, m.id).value);
    } else {
      var i :| 0 <= i < |b| && b[i] == m;
      assert IdOf(b[i]) == m.id;
      OnlyOneWith(b, m, FindIn(b, m.id).value);
    }
  }

  lemma {:induction false} ResolveMembers(a: seq<Member>, b: seq<Member>, ms: seq<Member>)
    requires DistinctKeys(a, IdOf) && DistinctKeys(b, IdOf)
    requires forall m | m in ms :: m in AddNew(a, b, IdOf)
    ensures Resolve(Ids(ms), a, b) == ms
  {
    if ms != [] {
      var front := ms[..|ms| - 1];
      ResolveMembers(a, b, front);
      UnionMemberResolves(a, b, ms[|ms| - 1]);
      assert Ids(ms)[..|ms| - 1] == Ids(front);
      assert Ids(ms)[|ms| - 1] == ms[|ms| - 1].id;
    }
  }

  /** Projecting to ids commutes with the union. */
  lemma {:induction false} IdsOfUnion(a: seq<Member>, b: seq<Member>)
    ensures Ids(AddNew(a, b, IdOf)) == AddNew(Ids(a), Ids(b), OfId)
  {
    if b != [] {
      var front, m := b[..|b| - 1], b[|b| - 1];
      IdsOfUnion(a, front);
      assert Ids(b)[..|b| - 1] == Ids(front);
      var mid := AddNew(a, front, IdOf);
      HasKeyOfIds(mid, m.id);
      assert Ids(mid + [m]) == Ids(mid) + [m.id];
    } else {
      assert Ids(b) == [];
    }
  }

  lemma HasKeyOfIds(ms: seq<Member>, id: Id)
    ensures HasKey(Ids(ms), id, OfId) <==> HasKey(ms, id, IdOf)
  {
  }

  /** The members routed by the decision: all of CURRENT, then the PENDING ones that are new. */
  ghost function RoutedMembers(p: UnitPlacements, d: Decision): seq<Member> {
    if d.inTransition then AddNew(Current(p, d), Pending(p, d), IdOf) else Current(p, d)
  }

  method RoutedReplicasForKey(p: UnitPlacements, r: int) returns (routed: seq<Member>, d: Decision)
    requires Proper(p)
    ensures IsDecision(IdPlacements(p), r, d) && routed == RoutedMembers(p, d)
  {
    d := Route(IdPlacements(p), r);
    if !d.inTransition { return Current(p, d), d; }
    routed := MembersById(d.routed, Current(p, d), Pending(p, d));
    IdsOfUnion(Current(p, d), Pending(p, d));
    ResolveMembers(Current(p, d), Pending(p, d), AddNew(Current(p, d), Pending(p, d), IdOf));
  }

  // ------------------------------------------- by (member, position), and back

  /** A routed member and the position index it holds; the index is a byte. */
  datatype Routed = Routed(member: Member, pos: nat)

  function PairOf(rr: Routed): (Id, nat) {
    (rr.member.id, rr.pos)
  }

  function MemberIdOf(rr: Routed): Id {
    rr.member.id
  }

  function WithUnit(ms: seq<Member>): (q: seq<Routed>)
    ensures |q| == |ms| && forall i | 0 <= i < |ms| :: q[i] == Routed(ms[i], i % 256)
  {
    seq(|ms|, i requires 0 <= i < |ms| => Routed(ms[i], i % 256))
  }

  ghost function RoutedPairs(p: UnitPlacements, d: Decision): seq<Routed> {
    if d.inTransition then AddNew(WithUnit(Current(p, d)), WithUnit(Pending(p, d)), PairOf) else WithUnit(Current(p, d))
  }

  method PairUp(ms: seq<Member>) returns (out: seq<Routed>)
    ensures out == WithUnit(ms)
  {
    out := [];
    for i := 0 to |ms|
      invariant out == WithUnit(ms)[..i]
    {
      out := out + [Routed(ms[i], i % 256)];
    }
  }

  method ContainsRoutedReplica(rs: seq<Routed>, want: Routed) returns (found: bool)
    ensures found <==> HasKey(rs, PairOf(want), PairOf)
  {
    for i := 0 to |rs|
      invariant forall k | 0 <= k < i :: PairOf(rs[k]) != PairOf(want)
    {
      if rs[i].member.id == want.member.id && rs[i].pos == want.pos {
        assert PairOf(rs[i]) == PairOf(want);
        return true;
      }
    }
    return false;
  }

  method RoutedReplicasWithUnit(p: UnitPlacements, r: int) returns (out: seq<Routed>, d: Decision)
    ensures IsDecision(IdPlacements(p), r, d) && out == RoutedPairs(p, d)
  {
    d := Route(IdPlacements(p), r);
    var cur := PairUp(Current(p, d));
    if !d.inTransition { return cur, d; }
    var pen := PairUp(Pending(p, d));
    out := cur;
    for i := 0 to |pen|
      invariant out == AddNew(cur, pen[..i], PairOf)
    {
      AddNewStep(cur, pen, PairOf, i);
      var dup := ContainsRoutedReplica(out, pen[i]);
      if dup { continue; }
      out := out + [pen[i]];
    }
    assert pen[..|pen|] == pen;
  }

  function Members(rs: seq<Routed>): (q: seq<Member>)
    ensures |q| == |rs| && forall i | 0 <= i < |rs| :: q[i] == rs[i].member
  {
    seq(|rs|, i requires 0 <= i < |rs| => rs[i].member)
  }

  /** The owner is routed at this pair besides the position its commit landed in, and the batch was
      applied there; `applied` is the outcome of that apply. */
  predicate ExtraCopy(rr: Routed, self: Id, committed: nat, applied: nat -> bool) {
    rr.member.id == self && rr.pos != committed && applied(rr.pos)
  }

  /** The owner's own acks: its commit, and the batch applied at its other routed positions. */
  function LocalAcks(routed: seq<Routed>, self: Id, committed: nat, applied: nat -> bool): nat {
    if routed == [] then 1
    else
      LocalAcks(routed[..|routed| - 1], self, committed, applied)
      + (if ExtraCopy(routed[|routed| - 1], self, committed, applied) then 1 else 0)
  }

  /** The CAS fan-out's target list, one entry per member in first-routed order, and the acks the owner
      itself accounts for. */
  method CasTargets(routed: seq<Routed>, self: Id, committed: nat, applied: nat -> bool)
    returns (all: seq<Member>, localAcks: nat)
    ensures all == Members(AddNew([], routed, MemberIdOf))
    ensures localAcks == LocalAcks(routed, self, committed, applied)
  {
    all, localAcks := [], 1;
    var seen: set<Id> := {};
    for i := 0 to |routed|
      invariant all == Members(AddNew([], routed[..i], MemberIdOf))
      invariant localAcks == LocalAcks(routed[..i], self, committed, applied)
      invariant forall id :: id in seen <==> HasKey(AddNew([], routed[..i], MemberIdOf), id, MemberIdOf)
    {
      assert routed[..i + 1][..i] == routed[..i];
      ghost var mid := AddNew([], routed[..i], MemberIdOf);
      KeysAfterOne(mid, routed[i]);
      if routed[i].member.id == self && routed[i].pos != committed {
        if applied(routed[i].pos) { localAcks := localAcks + 1; }
      }
      if routed[i].member.id in seen { continue; }
      seen := seen + {routed[i].member.id};
      all := all + [routed[i].member];
      assert Members(mid + [routed[i]]) == Members(mid) + [routed[i].member];
    }
    assert routed[..|routed|] == routed;
  }

  function RemoteAcks(all: seq<Member>, self: Id, acked: Id -> bool): nat {
    if all == [] then 0
    else
      var m := all[|all| - 1];
      RemoteAcks(all[..|all| - 1], self, acked) + (if m.id != self && acked(m.id) then 1 else 0)
  }

  lemma RemoteAcksStep(all: seq<Member>, self: Id, acked: Id -> bool, i: nat)
    requires i < |all|
    ensures RemoteAcks(all[..i + 1], self, acked)
            == RemoteAcks(all[..i], self, acked) + (if all[i].id != self && acked(all[i].id) then 1 else 0)
  {
    assert all[..i + 1][..i] == all[..i];
  }

  /** The remote legs: how many there are, and how many acked. */
  method CountRemoteAcks(all: seq<Member>, self: Id, acked: Id -> bool) returns (others: nat, acks: nat)
    ensures acks == RemoteAcks(all, self, acked) <= others
  {
    others, acks := 0, 0;
    for i := 0 to |all|
      invariant acks == RemoteAcks(all[..i], self, acked) <= others
    {
      RemoteAcksStep(all, self, acked, i);
      if all[i].id == self { continue; }
      others := others + 1;
      if acked(all[i].id) { acks := acks + 1; }
    }
    assert all[..|all|] == all;
  }

  datatype FanOut = NoReplicas | Met | Short

  /** One attempt of the fan-out against the ack bar `w`; `acked` says which remote legs acked. The bar
      is met exactly when the owner's acks and the remote ones reach it. */
  method ReplicateCasBatch(routed: seq<Routed>, self: Id, committed: nat, applied: nat -> bool,
                           acked: Id -> bool, w: nat)
    returns (out: FanOut)
    ensures out == NoReplicas <==> routed == []
    ensures out == Met <==> routed != [] && Acks(routed, self, committed, applied, acked) >= w
  {
    var all, localAcks := CasTargets(routed, self, committed, applied);
    AddNewSpec([], routed, MemberIdOf);
    if routed != [] { assert HasKey(routed, MemberIdOf(routed[0]), MemberIdOf); }
    if |all| == 0 { return NoReplicas; }
    var others, acks := CountRemoteAcks(all, self, acked);
    if others == 0 { return if w > localAcks then Short else Met; }
    if w - localAcks <= 0 { return Met; }
    out := if acks + localAcks >= w then Met else Short;
  }

  /** Where a batch is held: at a position of the owner, or with another member. */
  datatype Copy = Here(pos: nat) | There(id: Id)

  /** The owner's positions that hold the batch. */
  function LocalCopies(routed: seq<Routed>, self: Id, committed: nat, applied: nat -> bool): set<Copy> {
    if routed == [] then {Here(committed)}
    else
      var rr := routed[|routed| - 1];
      LocalCopies(routed[..|routed| - 1], self, committed, applied)
      + (if ExtraCopy(rr, self, committed, applied) then {Here(rr.pos)} else {})
  }

  /** The other members that hold it. */
  function RemoteCopies(all: seq<Member>, self: Id, acked: Id -> bool): set<Copy> {
    if all == [] then {}
    else
      var m := all[|all| - 1];
      RemoteCopies(all[..|all| - 1], self, acked) + (if m.id != self && acked(m.id) then {There(m.id)} else {})
  }

  lemma {:induction false} LocalCopyIff(routed: seq<Routed>, self: Id, committed: nat, applied: nat -> bool, c: Copy)
    ensures c in LocalCopies(routed, self, committed, applied) <==>
      c.Here? && (c.pos == committed || (applied(c.pos) && HasKey(routed, (self, c.pos), PairOf)))
  {
    if routed != [] {
      var front := routed[..|routed| - 1];
      LocalCopyIff(front, self, committed, applied, c);
      if c.Here? { HasKeySnoc(routed, (self, c.pos), PairOf); }
    }
  }

  lemma {:induction false} RemoteCopyIff(all: seq<Member>, self: Id, acked: Id -> bool, c: Copy)
    ensures c in RemoteCopies(all, self, acked) <==> c.There? && c.id != self && acked(c.id) && HasKey(all, c.id, IdOf)
  {
    if all != [] {
      RemoteCopyIff(all[..|all| - 1], self, acked, c);
      if c.There? { HasKeySnoc(all, c.id, IdOf); }
    }
  }

  lemma HasKeySnoc<T(!new), K>(q: seq<T>, k: K, key: T -> K)
    requires q != []
    ensures HasKey(q, k, key) <==> HasKey(q[..|q| - 1], k, key) || key(q[|q| - 1]) == k
  {
    var front := q[..|q| - 1];
    if HasKey(front, k, key) {
      var i :| 0 <= i < |front| && key(front[i]) == k;
      assert key(q[i]) == k;
    }
    if HasKey(q, k, key) && key(q[|q| - 1]) != k {
      var i :| 0 <= i < |q| && key(q[i]) == k;
      assert key(front[i]) == k;
    }
  }

  lemma {:induction false} LocalAcksAreCopies(routed: seq<Routed>, self: Id, committed: nat, applied: nat -> bool)
    requires DistinctKeys(routed, PairOf)
    ensures |LocalCopies(routed, self, committed, applied)| == LocalAcks(routed, self, committed, applied)
  {
    if routed != [] {
      var front, rr := routed[..|routed| - 1], routed[|routed| - 1];
      LocalAcksAreCopies(front, self, committed, applied);
      LocalCopyIff(front, self, committed, applied, Here(rr.pos));
      assert !HasKey(front, PairOf(rr), PairOf);
    }
  }

  lemma {:induction false} RemoteAcksAreCopies(all: seq<Member>, self: Id, acked: Id -> bool)
    requires DistinctKeys(all, IdOf)
    ensures |RemoteCopies(all, self, acked)| == RemoteAcks(all, self, acked)
  {
    if all != [] {
      var front, m := all[..|all| - 1], all[|all| - 1];
      RemoteAcksAreCopies(front, self, acked);
      RemoteCopyIff(front, self, acked, There(m.id));
      assert !HasKey(front, IdOf(m), IdOf);
    }
  }

  lemma RoutedPairsDistinct(p: UnitPlacements, d: Decision)
    requires Proper(p)
    ensures DistinctKeys(RoutedPairs(p, d), PairOf)
  {
    WithUnitDistinct(Current(p, d));
    if d.inTransition { AddNewSpec(WithUnit(Current(p, d)), WithUnit(Pending(p, d)), PairOf); }
  }

  lemma TargetsDistinct(routed: seq<Routed>)
    ensures DistinctKeys(Members(AddNew([], routed, MemberIdOf)), IdOf)
  {
    AddNewSpec([], routed, MemberIdOf);
    var q := AddNew([], routed, MemberIdOf);
    forall i, j | 0 <= i < j < |q| ensures IdOf(Members(q)[i]) != IdOf(Members(q)[j]) {
      assert MemberIdOf(q[i]) != MemberIdOf(q[j]);
    }
  }

  /** Every place that holds the batch after the fan-out. */
  ghost function Copies(routed: seq<Routed>, self: Id, committed: nat, applied: nat -> bool, acked: Id -> bool)
    : set<Copy>
  {
    LocalCopies(routed, self, committed, applied)
    + RemoteCopies(Members(AddNew([], routed, MemberIdOf)), self, acked)
  }

  ghost function Acks(routed: seq<Routed>, self: Id, committed: nat, applied: nat -> bool, acked: Id -> bool): nat {
    LocalAcks(routed, self, committed, applied)
    + RemoteAcks(Members(AddNew([], routed, MemberIdOf)), self, acked)
  }

  /** The acks the fan-out counts are the distinct places that hold the batch. */
  lemma AcksAreCopies(routed: seq<Routed>, self: Id, committed: nat, applied: nat -> bool, acked: Id -> bool)
    requires DistinctKeys(routed, PairOf)
    ensures |Copies(routed, self, committed, applied, acked)| == Acks(routed, self, committed, applied, acked)
  {
    TargetsDistinct(routed);
    LocalAcksAreCopies(routed, self, committed, applied);
    RemoteAcksAreCopies(Members(AddNew([], routed, MemberIdOf)), self, acked);
    var here, there := LocalCopies(routed, self, committed, applied),
                       RemoteCopies(Members(AddNew([], routed, MemberIdOf)), self, acked);
    forall c | c in here ensures c !in there {
      LocalCopyIff(routed, self, committed, applied, c);
      RemoteCopyIff(Members(AddNew([], routed, MemberIdOf)), self, acked, c);
    }
    assert |here + there| == |here| + |there|;
  }

  /** A fan-out that met its bar left the batch at that many distinct places, transition or not, and at
      no fewer than the full ring's bar asks for. */
  lemma MetBarHasCopies(p: UnitPlacements, r: int, d: Decision, wc: Consistency, self: Id, committed: nat,
                        applied: nat -> bool, acked: Id -> bool)
    requires Proper(p) && IsDecision(IdPlacements(p), r, d)
    requires Acks(RoutedPairs(p, d), self, committed, applied, acked) >= RequiredWriteAcks(wc, d.stableR)
    ensures |Copies(RoutedPairs(p, d), self, committed, applied, acked)|
            >= RequiredWriteAcks(wc, d.stableR) >= RequiredWriteAcks(wc, |p.full|)
  {
    RoutedPairsDistinct(p, d);
    AcksAreCopies(RoutedPairs(p, d), self, committed, applied, acked);
  }

  /** What follows an owner-local commit: the fan-out, and a flush of the owner's copy when it fell
      short. */
  function AfterFanOut(out: FanOut, flush: Option<CommitCas.Failure>): CommitCas.After {
    if out == Met then CommitCas.ReachedW
    else match flush case None => CommitCas.MissedW case Some(err) => CommitCas.FlushFailed(err)
  }

  /** What a commit's report says of the copies, whatever the fan-out made of it: replicated exactly when
      the batch is at as many distinct places as the bar asks for, under-replicated exactly when it is
      not and the owner's copy was flushed, failed exactly when that flush failed. */
  lemma ReportCountsCopies(p: UnitPlacements, d: Decision, w: nat, self: Id, committed: nat, applied: nat -> bool,
                           acked: Id -> bool, ws: seq<CommitCas.WriteOp>, out: FanOut,
                           flush: Option<CommitCas.Failure>)
    requires Proper(p) && ws != [] && RoutedPairs(p, d) != []
    requires out == Met <==> Acks(RoutedPairs(p, d), self, committed, applied, acked) >= w
    ensures
      var n := |Copies(RoutedPairs(p, d), self, committed, applied, acked)|;
      var report := CommitCas.PostCommit(true, ws, AfterFanOut(out, flush));
      && (report == CommitCas.Committed(false) <==> n >= w)
      && (report == CommitCas.Committed(true) <==> n < w && flush.None?)
      && (forall err :: report == CommitCas.Failed(err) <==> n < w && flush == Some(err))
    ensures forall after ::
      CommitCas.PostCommit(true, [], after) == CommitCas.PostCommit(false, ws, after) == CommitCas.Committed(false)
  {
    RoutedPairsDistinct(p, d);
    AcksAreCopies(RoutedPairs(p, d), self, committed, applied, acked);
  }

  lemma AtIndex(ms: seq<Member>, id: Id, pos: nat)
    requires |ms| <= 256
    ensures HasKey(WithUnit(ms), (id, pos), PairOf) <==> pos < |ms| && ms[pos].id == id
  {
    var q := WithUnit(ms);
    if pos < |ms| && ms[pos].id == id { assert PairOf(q[pos]) == (id, pos); }
  }

  /** Who is routed at a position: its current owner and, in a transition, its pending one. */
  lemma RoutedAtIff(p: UnitPlacements, d: Decision, id: Id, pos: nat)
    requires |Current(p, d)| <= 256 && |Pending(p, d)| <= 256
    ensures
      var cur, pen := Current(p, d), Pending(p, d);
      HasKey(RoutedPairs(p, d), (id, pos), PairOf) <==>
        || (pos < |cur| && cur[pos].id == id)
        || (d.inTransition && pos < |pen| && pen[pos].id == id)
  {
    AtIndex(Current(p, d), id, pos);
    AtIndex(Pending(p, d), id, pos);
    if d.inTransition { AddNewSpec(WithUnit(Current(p, d)), WithUnit(Pending(p, d)), PairOf); }
  }

  function Holder(c: Copy, self: Id): Id {
    match c case Here(_) => self case There(id) => id
  }

  /** The place holds the batch in position `pos`, or may: a remote member applies it wherever it is
      routed. */
  ghost predicate SitsAt(c: Copy, routed: seq<Routed>, pos: nat) {
    match c case Here(q) => q == pos case There(id) => HasKey(routed, (id, pos), PairOf)
  }

  /** When two places are one position, hence one database: exactly when the position is changing hands
      and they are its current and its pending owner. Outside a transition the bar counts positions. */
  lemma PlacesShareIff(p: UnitPlacements, d: Decision, self: Id, committed: nat, applied: nat -> bool,
                       acked: Id -> bool, x: Copy, y: Copy, pos: nat)
    requires |Current(p, d)| <= 256 && |Pending(p, d)| <= 256
    requires HasKey(RoutedPairs(p, d), (self, committed), PairOf) && x != y
    requires {x, y} <= Copies(RoutedPairs(p, d), self, committed, applied, acked)
    ensures
      var routed, cur, pen := RoutedPairs(p, d), Current(p, d), Pending(p, d);
      SitsAt(x, routed, pos) && SitsAt(y, routed, pos) <==>
        && (x.Here? ==> x.pos == pos) && (y.Here? ==> y.pos == pos)
        && d.inTransition && pos < |cur| && pos < |pen|
        && Holder(x, self) != Holder(y, self)
        && {Holder(x, self), Holder(y, self)} == {cur[pos].id, pen[pos].id}
  {
    var routed := RoutedPairs(p, d);
    forall c | c in {x, y}
      ensures c.There? ==> c.id != self
      ensures c.Here? ==> HasKey(routed, (self, c.pos), PairOf)
    {
      LocalCopyIff(routed, self, committed, applied, c);
      RemoteCopyIff(Members(AddNew([], routed, MemberIdOf)), self, acked, c);
    }
    assert x in {x, y} && y in {x, y};
    RoutedAtIff(p, d, Holder(x, self), pos);
    RoutedAtIff(p, d, Holder(y, self), pos);
  }

  lemma KeysAfterOne(q: seq<Routed>, x: Routed)
    ensures forall id ::
      HasKey(AddOne(q, x, MemberIdOf), id, MemberIdOf) <==> HasKey(q, id, MemberIdOf) || id == x.member.id
  {
    AddNewSpec(q, [x], MemberIdOf);
    assert AddNew(q, [x], MemberIdOf) == AddOne(q, x, MemberIdOf) by {
      assert [x][..0] == [];
    }
    assert [x][0] == x;
    assert MemberIdOf([x][0]) == x.member.id;
    assert forall id :: HasKey([x], id, MemberIdOf) <==> id == MemberIdOf(x);
  }

  /** Folding a list whose members are already distinct changes nothing. */
  lemma {:induction false} FoldDistinct(a: seq<Routed>)
    requires DistinctKeys(a, MemberIdOf)
    ensures AddNew([], a, MemberIdOf) == a
  {
    if a != [] {
      var front := a[..|a| - 1];
      FoldDistinct(front);
      assert !HasKey(front, MemberIdOf(a[|a| - 1]), MemberIdOf);
    }
  }

  /** Deduplicating pairs and then members is deduplicating members. */
  lemma {:induction false} FoldOfPairs(a: seq<Routed>, b: seq<Routed>)
    requires DistinctKeys(a, MemberIdOf)
    ensures AddNew([], AddNew(a, b, PairOf), MemberIdOf) == AddNew(a, b, MemberIdOf)
  {
    if b == [] {
      FoldDistinct(a);
    } else {
      var front, x := b[..|b| - 1], b[|b| - 1];
      FoldOfPairs(a, front);
      var pairs := AddNew(a, front, PairOf);
      if HasKey(pairs, PairOf(x), PairOf) {
        var i :| 0 <= i < |pairs| && PairOf(pairs[i]) == PairOf(x);
        assert MemberIdOf(pairs[i]) == x.member.id;
        AddNewSpec([], pairs, MemberIdOf);
        assert HasKey(pairs, x.member.id, MemberIdOf);
      } else {
        assert (pairs + [x])[..|pairs|] == pairs;
      }
    }
  }

  lemma {:induction false} MembersOfUnion(a: seq<Routed>, b: seq<Routed>)
    ensures Members(AddNew(a, b, MemberIdOf)) == AddNew(Members(a), Members(b), IdOf)
  {
    if b != [] {
      var front, x := b[..|b| - 1], b[|b| - 1];
      MembersOfUnion(a, front);
      assert Members(b)[..|b| - 1] == Members(front);
      var mid := AddNew(a, front, MemberIdOf);
      HasKeyOfMembers(mid, x.member.id);
      assert Members(mid + [x]) == Members(mid) + [x.member];
    } else {
      assert Members(b) == [];
    }
  }

  lemma HasKeyOfMembers(rs: seq<Routed>, id: Id)
    ensures HasKey(Members(rs), id, IdOf) <==> HasKey(rs, id, MemberIdOf)
  {
  }

  lemma WithUnitDistinct(ms: seq<Member>)
    requires DistinctKeys(ms, IdOf)
    ensures DistinctKeys(WithUnit(ms), MemberIdOf) && DistinctKeys(WithUnit(ms), PairOf)
    ensures Members(WithUnit(ms)) == ms
  {
  }

  /** The two resolvers agree: the CAS fan-out, folded to members, is the very list a plain put or get
      fans out to, in the same order and with the same addresses. */
  lemma ResolversAgree(p: UnitPlacements, r: int, d: Decision)
    requires Proper(p) && IsDecision(IdPlacements(p), r, d)
    ensures Members(AddNew([], RoutedPairs(p, d), MemberIdOf)) == RoutedMembers(p, d)
  {
    var a, b := WithUnit(Current(p, d)), WithUnit(Pending(p, d));
    WithUnitDistinct(Current(p, d));
    WithUnitDistinct(Pending(p, d));
    if d.inTransition {
      FoldOfPairs(a, b);
      MembersOfUnion(a, b);
    } else {
      FoldDistinct(a);
    }
  }

  /** The pair routed for a member at an index of a placement. */
  ghost predicate RoutedOnce(out: seq<Routed>, id: Id, pos: nat) {
    exists k | 0 <= k < |out| ::
      PairOf(out[k]) == (id, pos) && forall j | 0 <= j < |out| && j != k :: PairOf(out[j]) != (id, pos)
  }

  lemma OnceByPair(out: seq<Routed>, k: (Id, nat))
    requires DistinctKeys(out, PairOf) && HasKey(out, k, PairOf)
    ensures RoutedOnce(out, k.0, k.1)
  {
  }

  /** In transition every current and every pending (member, position) pair is routed exactly once, and
      nothing else is routed. */
  lemma PairsRoutedOnce(p: UnitPlacements, r: int, d: Decision)
    requires Proper(p) && IsDecision(IdPlacements(p), r, d) && d.inTransition
    ensures forall i | 0 <= i < |Current(p, d)| :: RoutedOnce(RoutedPairs(p, d), Current(p, d)[i].id, i % 256)
    ensures forall i | 0 <= i < |Pending(p, d)| :: RoutedOnce(RoutedPairs(p, d), Pending(p, d)[i].id, i % 256)
    ensures forall x | x in RoutedPairs(p, d) :: x in WithUnit(Current(p, d)) || x in WithUnit(Pending(p, d))
  {
    var a, b, out := WithUnit(Current(p, d)), WithUnit(Pending(p, d)), RoutedPairs(p, d);
    WithUnitDistinct(Current(p, d));
    AddNewSpec(a, b, PairOf);
    forall i | 0 <= i < |a| ensures RoutedOnce(out, Current(p, d)[i].id, i % 256) {
      assert HasKey(a, PairOf(a[i]), PairOf);
      OnceByPair(out, PairOf(a[i]));
    }
    forall i | 0 <= i < |b| ensures RoutedOnce(out, Pending(p, d)[i].id, i % 256) {
      assert HasKey(b, PairOf(b[i]), PairOf);
      OnceByPair(out, PairOf(b[i]));
    }
  }

  // ------------------------------------------------- the reconcile's own answer

  function CurrentUnitReplicas(locate: set<Id> -> seq<Member>, joining: set<Id>, r: int): seq<Member> {
    if joining == {} then locate({})
    else if CurrentReplicaSet(|locate({})|, |locate(joining)|, r) == CurrentFullRing then locate({})
    else locate(joining)
  }

  function PendingUnitReplicas(locate: set<Id> -> seq<Member>, draining: set<Id>): seq<Member> {
    if draining == {} then locate({})
    else if PendingReplicaSet(|locate(draining)|) == PendingFullRing then locate({})
    else locate(draining)
  }

  /** The sets that decide what a node mounts are the sets that decide where writes go. */
  lemma ReconcileAgreesWithRouting(locate: set<Id> -> seq<Member>, joining: set<Id>, draining: set<Id>, r: int,
                                   d: Decision)
    requires IsDecision(IdPlacements(PlacementsForUnit(locate, joining, draining)), r, d)
    ensures CurrentUnitReplicas(locate, joining, r) == Current(PlacementsForUnit(locate, joining, draining), d)
    ensures PendingUnitReplicas(locate, draining) == Pending(PlacementsForUnit(locate, joining, draining), d)
  {
  }
}
