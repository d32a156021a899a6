/** The cluster-init marker: any number of nodes decide between founding a cluster and joining one, and
    reshard finalizers advance it, by conditional writes against one shared object. */
module BootstrapMarker {
  import opened Basics

  /** The marker's value as a reader decodes it: text that does not parse or a zero unit count, or a
      record. */
  datatype Content = Corrupt | Rec(gen: nat, count: nat)

  type Token = nat

  // ------------------------------------------------------- the conditional store

  datatype Object = Object(data: Content, version: Token)

  datatype CondResult = Stored(version: Token) | Precondition

  /** The in-process store: every write mints the next version. */
  class MemConditionalStore {
    var obj: map<string, Object>
    var last: Token

    constructor ()
      ensures Valid() && obj == map[]
    {
      obj, last := map[], 0;
    }

    ghost predicate Valid()
      reads this
    {
      forall k | k in obj :: obj[k].version <= last
    }

    method PutIfAbsent(key: string, data: Content) returns (r: CondResult)
      requires Valid()
      modifies this
      ensures Valid() && (r.Stored? <==> key !in old(obj))
      ensures obj == if r.Stored? then old(obj)[key := Object(data, r.version)] else old(obj)
      ensures r.Stored? ==> forall k | k in old(obj) :: old(obj)[k].version < r.version
    {
      if key in obj { return Precondition; }
      last := last + 1;
      obj := obj[key := Object(data, last)];
      r := Stored(last);
    }

    method CompareAndSet(key: string, data: Content, expected: Token) returns (r: CondResult)
      requires Valid()
      modifies this
      ensures Valid() && (r.Stored? <==> key in old(obj) && old(obj)[key].version == expected)
      ensures obj == if r.Stored? then old(obj)[key := Object(data, r.version)] else old(obj)
      ensures r.Stored? ==> forall k | k in old(obj) :: old(obj)[k].version < r.version
    {
      if key !in obj || obj[key].version != expected { return Precondition; }
      last := last + 1;
      obj := obj[key := Object(data, last)];
      r := Stored(last);
    }

    method Get(key: string) returns (r: Option<Object>)
      ensures r == if key in obj then Some(obj[key]) else None
    {
      r := if key in obj then Some(obj[key]) else None;
    }
  }

  // ------------------------------------------------------------------- the nodes

  /** One call in progress. A booting node reads, then may try to found; a finalizer that wants to
      advance to a generation reads, then may compare-and-set on the version it read. */
  datatype Proc =
    | BootRead(count: nat)
    | BootPut(count: nat)
    | Founded(count: nat)
    | Joined(rec: Content)
    | BootFailed
    | AdvRead(gen: nat, count: nat)
    | AdvCas(gen: nat, count: nat, version: Token)
    | Advanced
    | AdvFailed

  /** `held` is every object the marker key has held, oldest first; the last is what it holds. */
  datatype Sys = Sys(held: seq<Object>, procs: seq<Proc>)

  /** How a conditional write ends for its caller: answered, or failed with the write landed or not. */
  datatype Outcome = Answered | Lost(landed: bool)

  datatype Step =
    | Boot(count: nat)
    | Advance(gen: nat, count: nat)
    | Get(i: nat)
    | GetFails(i: nat)
    | Put(i: nat, token: Token, out: Outcome)
    | Cas(i: nat, token: Token, out: Outcome)

  predicate PowerOfTwo(n: nat) {
    n == 1 || (n > 1 && n % 2 == 0 && PowerOfTwo(n / 2))
  }

  const MIN_UNIT_COUNT := 1
  const MAX_UNIT_COUNT := 0x4000_0000

  predicate ValidCount(n: nat) {
    MIN_UNIT_COUNT <= n <= MAX_UNIT_COUNT && PowerOfTwo(n)
  }

  function Pow2(k: nat): (p: nat)
    ensures p > 0
  {
    if k == 0 then 1 else 2 * Pow2(k - 1)
  }

  lemma {:induction false} ExponentOf(n: nat) returns (k: nat)
    requires PowerOfTwo(n)
    ensures n == Pow2(k)
  {
    k := 0;
    if n > 1 {
      k := ExponentOf(n / 2);
      k := k + 1;
    }
  }

  lemma {:induction false} Pow2IsPower(k: nat)
    ensures PowerOfTwo(Pow2(k))
  {
    if k > 0 { Pow2IsPower(k - 1); }
  }

  lemma {:induction false} Pow2Grows(j: nat, k: nat)
    requires j <= k
    ensures Pow2(j) <= Pow2(k) && (j < k ==> Pow2(j) < Pow2(k))
  {
    if j < k { Pow2Grows(j, k - 1); }
  }

  /** The unit counts a cluster can have: the powers of two up to 2^30. */
  lemma ValidCountIff(n: nat)
    ensures ValidCount(n) <==> exists k: nat | k <= 30 :: n == Pow2(k)
  {
    assert Pow2(10) == 1024;
    assert Pow2(20) == 1024 * 1024 by { assert Pow2(15) == 32 * 1024; }
    assert Pow2(30) == MAX_UNIT_COUNT by { assert Pow2(25) == 32 * 1024 * 1024; }
    if ValidCount(n) {
      var k := ExponentOf(n);
      if k > 30 { Pow2Grows(30, k); }
    }
    if k: nat :| k <= 30 && n == Pow2(k) {
      Pow2IsPower(k);
      Pow2Grows(0, k);
      Pow2Grows(k, 30);
    }
  }

  /** All a version token has to promise: equal tokens mean equal contents. A counter does, and so does
      a tag computed from the contents alone. */
  ghost predicate TokenSound(held: seq<Object>, o: Object) {
    forall k | 0 <= k < |held| :: held[k].version == o.version ==> held[k].data == o.data
  }

  ghost predicate Enabled(s: Sys, step: Step) {
    match step
    case Boot(count) => ValidCount(count)
    case Advance(_, count) => ValidCount(count)
    case Get(i) => i < |s.procs| && (s.procs[i].BootRead? || s.procs[i].AdvRead?)
    case GetFails(i) => i < |s.procs| && (s.procs[i].BootRead? || s.procs[i].AdvRead?)
    case Put(i, token, _) =>
      i < |s.procs| && s.procs[i].BootPut? && TokenSound(s.held, Object(Rec(0, s.procs[i].count), token))
    case Cas(i, token, _) =>
      i < |s.procs| && s.procs[i].AdvCas? && TokenSound(s.held, Object(Rec(s.procs[i].gen, s.procs[i].count), token))
  }

  function Now(s: Sys): Option<Object> {
    if s.held == [] then None else Some(s.held[|s.held| - 1])
  }

  function AfterGet(p: Proc, now: Option<Object>): Proc
    requires p.BootRead? || p.AdvRead?
  {
    match p
    case BootRead(count) =>
      if now.None? then BootPut(count)
      else if now.value.data == Corrupt || !ValidCount(now.value.data.count) then BootFailed
      else Joined(now.value.data)
    case AdvRead(gen, count) =>
      if now.None? then Advanced
      else if now.value.data == Corrupt then AdvFailed
      else if now.value.data.gen >= gen then Advanced
      else AdvCas(gen, count, now.value.version)
  }

  function Next(s: Sys, step: Step): Sys
    requires Enabled(s, step)
  {
    match step
    case Boot(count) => s.(procs := s.procs + [BootRead(count)])
    case Advance(gen, count) => s.(procs := s.procs + [AdvRead(gen, count)])
    case Get(i) => s.(procs := s.procs[i := AfterGet(s.procs[i], Now(s))])
    case GetFails(i) => s.(procs := s.procs[i := if s.procs[i].BootRead? then BootFailed else AdvFailed])
    case Put(i, token, out) =>
      var count := s.procs[i].count;
      var absent := s.held == [];
      var held := if absent && out != Lost(false) then [Object(Rec(0, count), token)] else s.held;
      Sys(held, s.procs[i := if out.Lost? then BootFailed else if absent then Founded(count) else BootRead(count)])
    case Cas(i, token, out) =>
      var p := s.procs[i];
      var matches := Now(s).Some? && Now(s).value.version == p.version;
      var held := if matches && out != Lost(false) then s.held + [Object(Rec(p.gen, p.count), token)] else s.held;
      Sys(held, s.procs[i := if out.Lost? then AdvFailed else if matches then Advanced else AdvRead(p.gen, p.count)])
  }

  // -------------------------------------------------------------------- invariant

  /** Each object has a strictly higher generation than all before it. */
  ghost predicate GensRise(held: seq<Object>) {
    forall k, m | 0 <= k < m < |held| ::
      held[k].data.Rec? && held[m].data.Rec? && held[k].data.gen < held[m].data.gen
  }

  ghost predicate ProcOk(s: Sys, start: seq<Object>, p: Proc) {
    match p
    case Founded(count) => start == [] && s.held != [] && s.held[0].data == Rec(0, count)
    case Joined(rec) => rec.Rec? && ValidCount(rec.count) && exists k | 0 <= k < |s.held| :: s.held[k].data == rec
    case AdvCas(gen, _, version) =>
      exists k | 0 <= k < |s.held| :: s.held[k].version == version && s.held[k].data.Rec? && s.held[k].data.gen < gen
    case _ => true
  }

  ghost predicate TokensSound(held: seq<Object>) {
    forall k, m | 0 <= k < |held| && 0 <= m < |held| ::
      held[k].version == held[m].version ==> held[k].data == held[m].data
  }

  ghost predicate OneFounder(procs: seq<Proc>) {
    forall i, j | 0 <= i < j < |procs| :: !(procs[i].Founded? && procs[j].Founded?)
  }

  ghost predicate Inv(s: Sys, start: seq<Object>) {
    && start <= s.held && GensRise(s.held) && TokensSound(s.held)
    && (forall i | 0 <= i < |s.procs| :: ProcOk(s, start, s.procs[i]))
    && OneFounder(s.procs)
  }

  lemma HeldKeepsInv(s: Sys, start: seq<Object>, step: Step)
    requires Inv(s, start) && Enabled(s, step)
    ensures var t := Next(s, step); s.held <= t.held && GensRise(t.held) && TokensSound(t.held)
  {
  }

  lemma ProcsKeepInv(s: Sys, start: seq<Object>, step: Step, j: nat)
    requires Inv(s, start) && Enabled(s, step) && j < |Next(s, step).procs| && s.held <= Next(s, step).held
    ensures ProcOk(Next(s, step), start, Next(s, step).procs[j])
  {
  }

  /** A node founds only over an absent marker, and a founder's marker is there. */
  lemma FoundersKeepInv(s: Sys, start: seq<Object>, step: Step)
    requires Inv(s, start) && Enabled(s, step)
    ensures OneFounder(Next(s, step).procs)
  {
  }

  lemma StepKeepsInv(s: Sys, start: seq<Object>, step: Step)
    requires Inv(s, start) && Enabled(s, step)
    ensures Inv(Next(s, step), start)
  {
    HeldKeepsInv(s, start, step);
    FoundersKeepInv(s, start, step);
    forall j | 0 <= j < |Next(s, step).procs| ensures ProcOk(Next(s, step), start, Next(s, step).procs[j]) {
      ProcsKeepInv(s, start, step, j);
    }
  }

  // -------------------------------------------------------------------- whole runs

  datatype Run = From(start: seq<Object>) | Then(before: Run, step: Step)

  function Start(r: Run): seq<Object> {
    match r case From(start) => start case Then(before, _) => Start(before)
  }

  /** Runs start with no marker, or with one left by an earlier life of the cluster. */
  ghost predicate IsRun(r: Run)
    decreases r, 0
  {
    match r
    case From(start) => |start| <= 1
    case Then(before, step) => IsRun(before) && Enabled(Last(before), step)
  }

  ghost function Last(r: Run): Sys
    requires IsRun(r)
    decreases r, 1
  {
    match r case From(start) => Sys(start, []) case Then(before, step) => Next(Last(before), step)
  }

  lemma {:induction false} RunKeepsInv(r: Run)
    requires IsRun(r)
    ensures Inv(Last(r), Start(r))
  {
    match r
    case From(_) =>
    case Then(before, step) =>
      RunKeepsInv(before);
      StepKeepsInv(Last(before), Start(r), step);
  }

  /** In every interleaving at most one node founds; it does so only if there was no marker, and the
      first value the marker ever held is its own. */
  lemma AtMostOneFounder(r: Run, i: nat, j: nat)
    requires IsRun(r) && i < |Last(r).procs| && j < |Last(r).procs|
    requires Last(r).procs[i].Founded? && Last(r).procs[j].Founded?
    ensures i == j && Start(r) == []
    ensures Last(r).held != [] && Last(r).held[0].data == Rec(0, Last(r).procs[i].count)
  {
    RunKeepsInv(r);
    assert ProcOk(Last(r), Start(r), Last(r).procs[i]);
  }

  /** What a booting node does, in every interleaving: reading a marker it joins exactly that one, or
      fails on one that is corrupt; reading none it tries to found; and its try, if answered, founds
      exactly when there is still no marker, which is then its own, and otherwise reads again. */
  lemma BootDecides(r: Run, i: nat, token: Token)
    requires IsRun(r) && i < |Last(r).procs|
    ensures var s, p := Last(r), Last(r).procs[i];
            p.BootRead? ==>
              var q := Next(s, Get(i)).procs[i];
              if s.held == [] then q == BootPut(p.count)
              else
                var now := s.held[|s.held| - 1].data;
                q == if now.Rec? && ValidCount(now.count) then Joined(now) else BootFailed
    ensures var s, p := Last(r), Last(r).procs[i];
            p.BootPut? && Enabled(s, Put(i, token, Answered)) ==>
              var t := Next(s, Put(i, token, Answered));
              if s.held == [] then t.procs[i] == Founded(p.count) && t.held == [Object(Rec(0, p.count), token)]
              else t.procs[i] == BootRead(p.count) && t.held == s.held
  {
  }

  ghost predicate Extends(r: Run, p: Run) {
    r == p || (r.Then? && Extends(r.before, p))
  }

  /** The marker has held the generation, or a higher one. */
  ghost predicate HasHeld(s: Sys, gen: nat) {
    exists k | 0 <= k < |s.held| :: s.held[k].data.Rec? && s.held[k].data.gen >= gen
  }

  /** Where a finalizer for `gen` that started over a marker can stand. */
  ghost predicate Advancing(s: Sys, i: nat, gen: nat) {
    && i < |s.procs| && s.held != []
    && (match s.procs[i]
        case AdvRead(g, _) => g == gen
        case AdvCas(g, _, _) => g == gen
        case Advanced => HasHeld(s, gen)
        case AdvFailed => true
        case _ => false)
  }

  lemma AdvancingStep(s: Sys, step: Step, i: nat, gen: nat)
    requires Enabled(s, step) && Advancing(s, i, gen)
    ensures Advancing(Next(s, step), i, gen)
  {
    var t := Next(s, step);
    if HasHeld(s, gen) {
      var k :| 0 <= k < |s.held| && s.held[k].data.Rec? && s.held[k].data.gen >= gen;
      assert t.held[k] == s.held[k];
    }
    if t.procs[i] != s.procs[i] && t.procs[i] == Advanced {
      var last := |t.held| - 1;
      assert t.held[last].data.Rec? && t.held[last].data.gen >= gen;
    }
  }

  /** In every interleaving a finalizer that started over a marker and reports done has done it: the
      marker has held the generation it asked for, or a higher one. */
  lemma {:induction false} AdvancedMeansHeld(r: Run, p: Run, i: nat)
    requires IsRun(r) && IsRun(p) && Extends(r, p)
    requires i < |Last(p).procs| && Last(p).procs[i].AdvRead? && Last(p).held != []
    ensures Advancing(Last(r), i, Last(p).procs[i].gen)
    ensures Last(r).procs[i] == Advanced ==> HasHeld(Last(r), Last(p).procs[i].gen)
  {
    if r != p {
      AdvancedMeansHeld(r.before, p, i);
      AdvancingStep(Last(r.before), r.step, i, Last(p).procs[i].gen);
    }
  }

  /** Every joiner adopts a value the marker really held, with a unit count a cluster can have. */
  lemma JoinersAdoptHeldValue(r: Run, i: nat)
    requires IsRun(r) && i < |Last(r).procs| && Last(r).procs[i].Joined?
    ensures Last(r).procs[i].rec.Rec? && ValidCount(Last(r).procs[i].rec.count)
    ensures exists k | 0 <= k < |Last(r).held| :: Last(r).held[k].data == Last(r).procs[i].rec
  {
    RunKeepsInv(r);
    assert ProcOk(Last(r), Start(r), Last(r).procs[i]);
  }

  /** The generation strictly increases with every write of the marker, even when the version token is
      computed from the contents alone; so no contents, and no token, ever recurs. */
  lemma GenerationsStrictlyRise(r: Run, k: nat, m: nat)
    requires IsRun(r) && k < m < |Last(r).held|
    ensures Last(r).held[k].data.Rec? && Last(r).held[m].data.Rec?
    ensures Last(r).held[k].data.gen < Last(r).held[m].data.gen
    ensures Last(r).held[k].version != Last(r).held[m].version
  {
    RunKeepsInv(r);
    var held := Last(r).held;
    assert GensRise(held) && TokensSound(held);
    assert held[k].data.Rec? && held[m].data.Rec? && held[k].data.gen < held[m].data.gen;
  }
}
