/** The graceful leave: a node that is going away polls until every position it still has mounted is
    provably served elsewhere, or its budget runs out. */
module Leave {
  import opened Basics
  import opened MountTable
  import opened OverlapProtocol
  import Reconcile

  /** What the gate saw of one mounted position: the node's own open epoch, then the marker. */
  datatype GateRead = GateRead(ru: ReplicaUnit, open: Epoch, marker: Reconcile.MarkerRead)

  predicate HandedOff(g: GateRead) {
    g.marker.Marker? && g.marker.e > g.open
  }

  /** The positions of `gates` that are not handed off, in order. */
  function Awaiting(gates: seq<GateRead>): seq<ReplicaUnit> {
    if gates == [] then []
    else Awaiting(gates[..|gates| - 1]) + (if HandedOff(gates[|gates| - 1]) then [] else [gates[|gates| - 1].ru])
  }

  lemma {:induction false} NoneAwaitingIff(gates: seq<GateRead>)
    ensures Awaiting(gates) == [] <==> forall i | 0 <= i < |gates| :: HandedOff(gates[i])
  {
    if gates != [] {
      var front := gates[..|gates| - 1];
      NoneAwaitingIff(front);
      assert forall i | 0 <= i < |front| :: gates[i] == front[i];
    }
  }

  predicate Waits(g: GateRead) {
    g.marker == Reconcile.Unreadable || g.marker == Reconcile.NoMarker || g.marker.e <= g.open
  }

  /** `idx` picks reads out of the first `n` in order: exactly those that found no marker above the own
      epoch. */
  ghost predicate Picks(gates: seq<GateRead>, n: nat, idx: seq<nat>)
    requires n <= |gates|
  {
    && (forall j, k | 0 <= j < k < |idx| :: idx[j] < idx[k])
    && (forall j | 0 <= j < |idx| :: idx[j] < n && Waits(gates[idx[j]]))
    && (forall i: nat | i < n && i !in idx :: !Waits(gates[i]))
  }

  lemma PickedAfter(idx: seq<nat>, n: nat, i: nat)
    requires i in idx || i == n
    ensures i in idx + [n]
  {
    assert (idx + [n])[|idx|] == n;
    assert forall j | 0 <= j < |idx| :: (idx + [n])[j] == idx[j];
  }

  lemma PicksNext(gates: seq<GateRead>, n: nat, idx: seq<nat>)
    requires n < |gates| && Picks(gates, n, idx)
    ensures HandedOff(gates[n]) ==> Picks(gates, n + 1, idx)
    ensures !HandedOff(gates[n]) ==> Picks(gates, n + 1, idx + [n])
  {
    if !HandedOff(gates[n]) {
      forall i: nat | i in idx || i == n ensures i in idx + [n] { PickedAfter(idx, n, i); }
    }
  }

  lemma {:induction false} AwaitingOf(gates: seq<GateRead>, n: nat) returns (idx: seq<nat>)
    requires n <= |gates|
    ensures Picks(gates, n, idx) && |idx| == |Awaiting(gates[..n])|
    ensures forall j | 0 <= j < |idx| :: Awaiting(gates[..n])[j] == gates[idx[j]].ru
  {
    idx := [];
    if n > 0 {
      idx := AwaitingOf(gates, n - 1);
      assert gates[..n][..n - 1] == gates[..n - 1];
      PicksNext(gates, n - 1, idx);
      if !HandedOff(gates[n - 1]) { idx := idx + [n - 1]; }
    }
  }

  /** Which positions wait: those of the reads that found no marker above the own epoch, each once per
      such read and in the order read. */
  lemma AwaitingNames(gates: seq<GateRead>) returns (idx: seq<nat>)
    ensures Picks(gates, |gates|, idx) && |idx| == |Awaiting(gates)|
    ensures forall j | 0 <= j < |idx| :: Awaiting(gates)[j] == gates[idx[j]].ru
  {
    idx := AwaitingOf(gates, |gates|);
    assert gates[..|gates|] == gates;
  }

  /** `positionsAwaitingSuccessor`; outside the replica layout nothing is ever waited for. */
  method PositionsAwaitingSuccessor(layout: bool, gates: seq<GateRead>) returns (waiting: seq<ReplicaUnit>)
    ensures waiting == if layout then Awaiting(gates) else []
  {
    waiting := [];
    if !layout { return; }
    for i := 0 to |gates|
      invariant waiting == Awaiting(gates[..i])
    {
      assert gates[..i + 1][..i] == gates[..i];
      var g := gates[i];
      if !g.marker.Marker? || g.marker.e <= g.open { waiting := waiting + [g.ru]; }
    }
    assert gates[..|gates|] == gates;
  }

  /** One poll: what the gate read after the reconcile it drove, and whether the budget had expired. */
  datatype Poll = Poll(gates: seq<GateRead>, expired: bool)

  datatype LeaveResult = Left(polls: nat) | TimedOut(polls: nat, stranded: seq<ReplicaUnit>)

  /** `DrainForLeave`, which announces the draining role first, over a budget that expires by poll
      `bound`. The first poll that passes its gate ends the leave cleanly even if the budget has expired
      by then; otherwise the leave gives up at the first expired poll and names the positions still
      waiting at its second look. */
  method DrainForLeave(replicated: bool, layout: bool, polls: nat -> Poll, atGiveUp: seq<GateRead>, bound: nat)
    returns (announced: bool, r: LeaveResult)
    requires polls(bound).expired
    ensures announced == replicated
    ensures !replicated ==> r == Left(0)
    ensures replicated && r.Left? ==> r.polls > 0 && (!layout || Awaiting(polls(r.polls - 1).gates) == [])
    ensures r.TimedOut? ==>
      && r.polls > 0 && polls(r.polls - 1).expired && layout && Awaiting(polls(r.polls - 1).gates) != []
      && r.stranded == Awaiting(atGiveUp)
    ensures forall k | 0 <= k < r.polls - 1 :: !polls(k).expired && Awaiting(polls(k).gates) != []
    ensures r.polls > 1 ==> layout
    ensures r.polls <= bound + 1
  {
    if !replicated { return false, Left(0); }
    announced := true;
    var k := 0;
    while true
      invariant k <= bound
      invariant forall j | 0 <= j < k :: !polls(j).expired && Awaiting(polls(j).gates) != []
      invariant k > 0 ==> layout
      decreases bound - k
    {
      var waiting := PositionsAwaitingSuccessor(layout, polls(k).gates);
      if |waiting| == 0 { return true, Left(k + 1); }
      if polls(k).expired {
        var stranded := PositionsAwaitingSuccessor(layout, atGiveUp);
        return true, TimedOut(k + 1, stranded);
      }
      k := k + 1;
    }
  }

  /** One position's part in a gate, in the handoff protocol: the mount that was listed, and the look
      taken at it. */
  datatype Seen = Seen(h: Handle, look: Look)

  ghost predicate SawThis(n: NodeId, g: GateRead, w: Seen) {
    && IsLook(w.look, n, w.h)
    && g.open == EpochSeen(w.look, n, w.h)
    && (g.marker.Marker? ==> Last(w.look.atMarker).g.marker == Some(g.marker.e))
  }

  /** The marker the gate read is not one this node installed after listing its mounts, the epoch was
      not read off a missing record and a failed fallback, and the stuck-flip publishes were safe. */
  ghost predicate Undisturbed(n: NodeId, g: GateRead, w: Seen)
    requires SawThis(n, g, w) && g.marker.Marker?
  {
    && !Remounted(w.look, n, w.h, g.marker.e)
    && (w.look.failed ==> Last(w.look.atRecord).nodes[n].slot.open.Some?)
    && Last(w.look.atMarker).g.marksSafe
  }

  /** When a leave passes its gate, whatever happened to each position while the gate looked at it: each
      of them has a different node that served it above the listed mount exactly when its marker is
      above that mount, was served, and is not one the leaver installed after listing. An undisturbed
      position always has one. */
  lemma CleanLeaveIsCoveredIff(n: NodeId, gates: seq<GateRead>, seen: seq<Seen>, i: nat)
    requires |seen| == |gates| && Awaiting(gates) == [] && i < |gates|
    requires SawThis(n, gates[i], seen[i])
    ensures gates[i].marker.Marker?
    ensures
      var m, w := gates[i].marker.e, seen[i];
      var s := Last(w.look.atMarker);
      && (Succeeded(s, n, w.h, m) <==> m > w.h.epoch && Served(s.g, m) && !Remounted(w.look, n, w.h, m))
      && (Undisturbed(n, gates[i], w) ==> Succeeded(s, n, w.h, m))
  {
    NoneAwaitingIff(gates);
    assert HandedOff(gates[i]);
    LeaveGateProvesSuccessorIff(seen[i].look, n, seen[i].h);
  }
}
