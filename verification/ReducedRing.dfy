/** The memoised reduced ring of the static coordinator: hypothetical placements locate over a ring
    rebuilt without the excluded members, cached on the exclusion set and the membership epoch. */
module ReducedRing {
  import opened Basics
  import opened Lex

  type Id = Bytes

  // ------------------------------------------------------------------ the memo key

  const NUL: Byte := 0

  function Join(ids: seq<Id>): Bytes {
    if ids == [] then [] else if |ids| == 1 then ids[0] else ids[0] + [NUL] + Join(ids[1..])
  }

  /** `k` is the key of the exclusion set: its members, ascending, joined by NUL. */
  ghost predicate IsKey(exclude: set<Id>, k: Bytes) {
    exists q: seq<Id> :: Ascending(q) && Elems(q) == exclude && k == Join(q)
  }

  method ExcludeKey(exclude: set<Id>) returns (k: Bytes)
    ensures IsKey(exclude, k)
  {
    var ids := Sort(exclude);
    k := Join(ids);
  }

  /** The key does not depend on the order the set was walked in. */
  lemma KeyIsAFunction(exclude: set<Id>, k: Bytes, l: Bytes)
    requires IsKey(exclude, k) && IsKey(exclude, l)
    ensures k == l
  {
    var p :| Ascending(p) && Elems(p) == exclude && k == Join(p);
    var q :| Ascending(q) && Elems(q) == exclude && l == Join(q);
    AscendingUnique(p, q);
  }

  /** Every member is a string without NUL. */
  ghost predicate NulFree(ids: seq<Id>) {
    forall i | 0 <= i < |ids| :: NUL !in ids[i]
  }

  /** Where the first member ends: at the end of the text, or at its first NUL. */
  lemma JoinHead(p: seq<Id>)
    requires p != [] && NulFree(p)
    ensures p[0] <= Join(p)
    ensures forall i | 0 <= i < |p[0]| :: Join(p)[i] != NUL
    ensures |p| == 1 ==> Join(p) == p[0]
    ensures |p| > 1 ==> |Join(p)| > |p[0]| && Join(p)[|p[0]|] == NUL && Join(p)[|p[0]| + 1..] == Join(p[1..])
  {
  }

  lemma {:induction false} JoinInjective(p: seq<Id>, q: seq<Id>)
    requires p != [] && q != [] && NulFree(p) && NulFree(q) && Join(p) == Join(q)
    ensures p == q
  {
    JoinHead(p);
    JoinHead(q);
    var text := Join(p);
    assert |p[0]| == |q[0]|;
    assert p[0] == text[..|p[0]|] == text[..|q[0]|] == q[0];
    if |p| > 1 {
      JoinInjective(p[1..], q[1..]);
      assert p == [p[0]] + p[1..] && q == [q[0]] + q[1..];
    }
  }

  ghost predicate Plain(exclude: set<Id>) {
    exclude != {} && forall id | id in exclude :: NUL !in id
  }

  /** The key tells apart any two non-empty exclusion sets of NUL-free ids. */
  lemma KeyIsInjective(x: set<Id>, y: set<Id>, k: Bytes)
    requires Plain(x) && Plain(y) && IsKey(x, k) && IsKey(y, k)
    ensures x == y
  {
    var p :| Ascending(p) && Elems(p) == x && k == Join(p);
    var q :| Ascending(q) && Elems(q) == y && k == Join(q);
    assert forall i | 0 <= i < |p| :: p[i] in Elems(p);
    assert forall i | 0 <= i < |q| :: q[i] in Elems(q);
    assert p != [] && q != [];
    JoinInjective(p, q);
  }

  lemma EmptyKeysCollide()
    ensures IsKey({}, []) && IsKey({[]}, [])
  {
    var none: seq<Id> := [];
    assert Ascending(none) && Elems(none) == {} && Join(none) == [];
    var empty: seq<Id> := [[]];
    assert Ascending(empty) && Elems(empty) == {[]} && Join(empty) == [];
  }

  /** Outside that range it does not: the empty set meets the set of the empty id, and every id with a
      NUL between a smaller and a larger part meets the set of those two parts. */
  lemma KeyCollides(a: Id, b: Id)
    requires Less(a, b)
    ensures IsKey({}, []) && IsKey({[]}, [])
    ensures IsKey({a + [NUL] + b}, a + [NUL] + b) && IsKey({a, b}, a + [NUL] + b)
    ensures {a + [NUL] + b} != {a, b}
  {
    EmptyKeysCollide();
    var one, two: seq<Id> := [a + [NUL] + b], [a, b];
    assert Ascending(one) && Elems(one) == {a + [NUL] + b} && Join(one) == a + [NUL] + b;
    assert two[1..] == [b];
    assert Ascending(two) && Elems(two) == {a, b} && Join(two) == a + [NUL] + b;
    LessIrreflexive(a);
    assert |a + [NUL] + b| > |a|;
    assert a + [NUL] + b !in {a, b} by { assert |a + [NUL] + b| > |b|; }
  }

  // -------------------------------------------------------------------- the machine

  type Members = map<Id, string>

  function Reduced(ms: Members, exclude: set<Id>): Members {
    ms - exclude
  }

  datatype Memo = Memo(ring: Members, key: Bytes, epoch: nat)

  /** A call: it has computed its key and loaded the epoch, or it has returned a ring. `quiet` records
      that no ring mutation has overlapped it so far. */
  datatype Call = Loaded(exclude: set<Id>, key: Bytes, epoch: nat, quiet: bool) | Returned(ring: Members)

  /** `mutating` is the number of mutators that have touched the ring and not yet bumped the epoch. */
  datatype Sys = Sys(members: Members, epoch: nat, mutating: nat, memo: Option<Memo>, calls: seq<Call>)

  datatype Step =
    | MutateBegin
    | Mutate(members: Members)
    | MutateEnd
    | Load(exclude: set<Id>, key: Bytes)
    | Locked(i: nat)

  ghost predicate Enabled(s: Sys, step: Step) {
    match step
    case MutateBegin => true
    case Mutate(_) => s.mutating > 0
    case MutateEnd => s.mutating > 0
    case Load(exclude, key) => IsKey(exclude, key)
    case Locked(i) => i < |s.calls| && s.calls[i].Loaded?
  }

  function Disturb(calls: seq<Call>): (q: seq<Call>)
    ensures |q| == |calls|
    ensures forall i | 0 <= i < |calls| :: q[i] == if calls[i].Loaded? then calls[i].(quiet := false) else calls[i]
  {
    seq(|calls|, i requires 0 <= i < |calls| => if calls[i].Loaded? then calls[i].(quiet := false) else calls[i])
  }

  /** The locked part of a call: the memo if it matches, else a rebuild that replaces it. */
  function Answer(members: Members, memo: Option<Memo>, exclude: set<Id>, key: Bytes, epoch: nat)
    : (Members, Option<Memo>)
  {
    if memo.Some? && memo.value.key == key && memo.value.epoch == epoch then (memo.value.ring, memo)
    else (Reduced(members, exclude), Some(Memo(Reduced(members, exclude), key, epoch)))
  }

  function Next(s: Sys, step: Step): Sys
    requires Enabled(s, step)
  {
    match step
    case MutateBegin => s.(mutating := s.mutating + 1, calls := Disturb(s.calls))
    case Mutate(ms) => s.(members := ms)
    case MutateEnd => s.(mutating := s.mutating - 1, epoch := s.epoch + 1)
    case Load(exclude, key) => s.(calls := s.calls + [Loaded(exclude, key, s.epoch, s.mutating == 0)])
    case Locked(i) =>
      var c := s.calls[i];
      var (ring, memo) := Answer(s.members, s.memo, c.exclude, c.key, c.epoch);
      s.(memo := memo, calls := s.calls[i := Returned(ring)])
  }

  /** The ring that a list of nodes makes: a later entry updates the address of an earlier one. */
  function FromNodes(nodes: seq<(Id, string)>): Members {
    if nodes == [] then map[] else FromNodes(nodes[..|nodes| - 1])[nodes[|nodes| - 1].0 := nodes[|nodes| - 1].1]
  }

  /** It holds exactly the ids listed, each with the address of its last entry. */
  lemma {:induction false} FromNodesHolds(nodes: seq<(Id, string)>, id: Id)
    ensures id in FromNodes(nodes) <==> exists i | 0 <= i < |nodes| :: nodes[i].0 == id
    ensures id in FromNodes(nodes) ==>
      exists i | 0 <= i < |nodes| ::
        nodes[i].0 == id && nodes[i].1 == FromNodes(nodes)[id] && forall j | i < j < |nodes| :: nodes[j].0 != id
  {
    if nodes != [] {
      var n := |nodes| - 1;
      var front := nodes[..n];
      FromNodesHolds(front, id);
      if nodes[n].0 == id {
        assert nodes[n].1 == FromNodes(nodes)[id];
      } else if id in FromNodes(front) {
        var i :| 0 <= i < |front| && front[i].0 == id && front[i].1 == FromNodes(front)[id]
                 && forall j | i < j < |front| :: front[j].0 != id;
        assert nodes[i].0 == id && forall j | i < j < n :: nodes[j] == front[j];
      } else {
        assert forall i | 0 <= i < n :: nodes[i] == front[i];
      }
    }
  }

  /** The fields of the coordinator that a call and a mutation share, as the code updates them. */
  class Coordinator {
    var members: Members
    var epoch: nat
    var memo: Option<Memo>

    constructor (init: Members)
      ensures members == init && epoch == 0 && memo == None
    {
      members, epoch, memo := init, 0, None;
    }

    method ReducedRing(exclude: set<Id>) returns (ring: Members)
      modifies this`memo
      ensures exists key :: IsKey(exclude, key) && (ring, memo) == Answer(members, old(memo), exclude, key, epoch)
    {
      var key := ExcludeKey(exclude);
      if memo.Some? && memo.value.key == key && memo.value.epoch == epoch { return memo.value.ring; }
      ring := map[];
      var todo := members.Keys;
      while todo != {}
        invariant todo <= members.Keys && ring == map id | id in members && id !in todo && id !in exclude :: members[id]
      {
        var id :| id in todo;
        todo := todo - {id};
        if id in exclude { continue; }
        ring := ring[id := members[id]];
      }
      assert ring == Reduced(members, exclude);
      memo := Some(Memo(ring, key, epoch));
    }

    /** Replaces the placement basis in place, then bumps the epoch. */
    method SetMembers(nodes: seq<(Id, string)>)
      modifies this`members, this`epoch
      ensures members == FromNodes(nodes) && epoch == old(epoch) + 1
    {
      members := map id | id in members && id in FromNodes(nodes) :: members[id];
      ghost var kept := members;
      for i := 0 to |nodes|
        invariant epoch == old(epoch)
        invariant members == kept + FromNodes(nodes[..i])
      {
        assert nodes[..i + 1][..i] == nodes[..i];
        members := members[nodes[i].0 := nodes[i].1];
      }
      assert nodes[..|nodes|] == nodes;
      epoch := epoch + 1;
    }

    method RemoveFromRing(id: Id)
      modifies this`members, this`epoch
      ensures members == old(members) - {id} && epoch == old(epoch) + 1
    {
      members := members - {id};
      epoch := epoch + 1;
    }
  }

  // ---------------------------------------------------------------------- invariant

  /** A memo filed under the current epoch is the ring of some exclusion set with its key, unless a
      mutation is under way; `plain` when only plain sets were ever asked for. */
  ghost predicate MemoOk(s: Sys, plain: bool) {
    s.memo.Some? ==>
      && s.memo.value.epoch <= s.epoch
      && (s.memo.value.epoch == s.epoch && s.mutating == 0 ==>
            exists x | IsKey(x, s.memo.value.key) ::
              s.memo.value.ring == Reduced(s.members, x) && (plain ==> Plain(x)))
  }

  ghost predicate CallsOk(s: Sys, plain: bool) {
    forall i | 0 <= i < |s.calls| && s.calls[i].Loaded? ::
      && s.calls[i].epoch <= s.epoch && IsKey(s.calls[i].exclude, s.calls[i].key)
      && (plain ==> Plain(s.calls[i].exclude))
      && (s.calls[i].quiet ==> s.calls[i].epoch == s.epoch && s.mutating == 0)
  }

  ghost predicate Inv(s: Sys, plain: bool) {
    MemoOk(s, plain) && CallsOk(s, plain)
  }

  ghost predicate PlainStep(step: Step) {
    step.Load? ==> Plain(step.exclude)
  }

  lemma StepKeepsInv(s: Sys, step: Step, plain: bool)
    requires Inv(s, plain) && Enabled(s, step) && (plain ==> PlainStep(step))
    ensures Inv(Next(s, step), plain)
  {
  }

  datatype Run = From(members: Members) | Then(before: Run, step: Step)

  ghost predicate IsRun(r: Run)
    decreases r, 0
  {
    r.Then? ==> IsRun(r.before) && Enabled(Last(r.before), r.step)
  }

  ghost function Last(r: Run): Sys
    requires IsRun(r)
    decreases r, 1
  {
    match r case From(ms) => Sys(ms, 0, 0, None, []) case Then(before, step) => Next(Last(before), step)
  }

  /** Every call of the run excludes a non-empty set of NUL-free ids, as every caller of Locate does. */
  ghost predicate PlainRun(r: Run) {
    r.Then? ==> PlainRun(r.before) && PlainStep(r.step)
  }

  lemma {:induction false} RunKeepsInv(r: Run, plain: bool)
    requires IsRun(r) && (plain ==> PlainRun(r))
    ensures Inv(Last(r), plain)
  {
    if r.Then? {
      RunKeepsInv(r.before, plain);
      StepKeepsInv(Last(r.before), r.step, plain);
    }
  }

  /** Leaving out two sets gives the same ring exactly when they leave out the same members. */
  lemma SameRingIff(members: Members, x: set<Id>, y: set<Id>)
    ensures Reduced(members, x) == Reduced(members, y) <==> x * members.Keys == y * members.Keys
  {
    var rx, ry := Reduced(members, x), Reduced(members, y);
    assert rx.Keys == members.Keys - x && ry.Keys == members.Keys - y;
    if rx == ry {
      assert x * members.Keys == members.Keys - rx.Keys;
      assert y * members.Keys == members.Keys - ry.Keys;
    }
    if x * members.Keys == y * members.Keys {
      forall id | id in members ensures id in x <==> id in y {
        assert id in x * members.Keys <==> id in y * members.Keys;
      }
      assert rx == ry;
    }
  }

  /** In every interleaving of ring mutations and calls, whatever they exclude, a call that no mutation
      overlaps returns the current members without those of some set `x` filed under the same key, and
      that is its own exclusion exactly when `x` leaves out the same members. */
  lemma QuietCallIsExactIff(r: Run, i: nat)
    requires IsRun(r) && Enabled(Last(r), Locked(i)) && Last(r).calls[i].quiet
    ensures
      var s, c := Last(r), Last(r).calls[i];
      var got := Next(s, Locked(i)).calls[i];
      exists x | IsKey(x, c.key) ::
        && got == Returned(Reduced(s.members, x))
        && (got == Returned(Reduced(s.members, c.exclude)) <==> x * s.members.Keys == c.exclude * s.members.Keys)
  {
    RunKeepsInv(r, false);
    var s, c := Last(r), Last(r).calls[i];
    var x := c.exclude;
    if s.memo.Some? && s.memo.value.key == c.key && s.memo.value.epoch == c.epoch {
      x :| IsKey(x, s.memo.value.key) && s.memo.value.ring == Reduced(s.members, x);
    }
    SameRingIff(s.members, x, c.exclude);
    assert IsKey(x, c.key);
  }

  /** When only non-empty sets of NUL-free ids are asked for, it is always exact, whether it rebuilt the
      ring or found it. */
  lemma QuietCallIsExact(r: Run, i: nat)
    requires IsRun(r) && PlainRun(r) && Enabled(Last(r), Locked(i)) && Last(r).calls[i].quiet
    ensures
      var s, c := Last(r), Last(r).calls[i];
      var got := Next(s, Locked(i)).calls[i];
      && got == Returned(Reduced(s.members, c.exclude))
      && (forall id :: id in got.ring <==> id in s.members && id !in c.exclude)
      && (forall id | id in got.ring :: got.ring[id] == s.members[id])
  {
    RunKeepsInv(r, true);
    var s, c := Last(r), Last(r).calls[i];
    if s.memo.Some? && s.memo.value.key == c.key && s.memo.value.epoch == c.epoch {
      var x :| IsKey(x, s.memo.value.key) && s.memo.value.ring == Reduced(s.members, x) && Plain(x);
      KeyIsInjective(x, c.exclude, c.key);
    }
  }

  /** What a key collision costs: after a call for `x`, a call for `y` under the same key at the same
      epoch is answered with `x`'s ring, which is right exactly when both leave out the same members. */
  lemma CollidingCallIsExactIff(members: Members, x: set<Id>, y: set<Id>, key: Bytes, epoch: nat)
    requires IsKey(x, key) && IsKey(y, key)
    ensures var memo := Answer(members, None, x, key, epoch).1;
            Answer(members, memo, y, key, epoch).0 == Reduced(members, y)
            <==> x * members.Keys == y * members.Keys
  {
    SameRingIff(members, x, y);
  }
}
