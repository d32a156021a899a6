/** Lease expiry by the observer's own pass count: one fold over the rows of a pass, and what it
    reports after any number of passes. */
module LeaseExpiry {
  import opened Basics

  type Id = string

  datatype Row = Row(id: Id, inc: string, gen: nat)

  datatype Obs = Obs(inc: string, gen: nat, stale: nat)

  type Seen = map<Id, Obs>

  // ---------------------------------------------------------------- one pass

  /** The observation recorded for a row, given what was recorded before. */
  function Observe(prev: Seen, row: Row): Obs {
    if row.id in prev && prev[row.id].inc == row.inc && prev[row.id].gen == row.gen
    then Obs(row.inc, row.gen, prev[row.id].stale + 1)
    else Obs(row.inc, row.gen, 0)
  }

  predicate Silent(prev: Seen, row: Row, expiryPolls: int) {
    var o := Observe(prev, row);
    o.stale > 0 && o.stale >= expiryPolls
  }

  function Recorded(prev: Seen, rows: seq<Row>, self: Id): Seen {
    if rows == [] then map[]
    else
      var front, row := Recorded(prev, rows[..|rows| - 1], self), rows[|rows| - 1];
      if row.id == self then front else front[row.id := Observe(prev, row)]
  }

  /** The expired ids, in row order. */
  function Expired(prev: Seen, rows: seq<Row>, expiryPolls: int, self: Id): seq<Id> {
    if rows == [] then []
    else
      var front, row := Expired(prev, rows[..|rows| - 1], expiryPolls, self), rows[|rows| - 1];
      if row.id != self && Silent(prev, row, expiryPolls) then front + [row.id] else front
  }

  method ExpireSilent(prev: Seen, rows: seq<Row>, expiryPolls: int, self: Id) returns (next: Seen, expired: seq<Id>)
    ensures next == Recorded(prev, rows, self) && expired == Expired(prev, rows, expiryPolls, self)
  {
    next, expired := map[], [];
    for i := 0 to |rows|
      invariant next == Recorded(prev, rows[..i], self)
      invariant expired == Expired(prev, rows[..i], expiryPolls, self)
    {
      assert rows[..i + 1][..i] == rows[..i];
      var row := rows[i];
      if row.id == self { continue; }
      if row.id !in prev || prev[row.id].inc != row.inc || prev[row.id].gen != row.gen {
        next := next[row.id := Obs(row.inc, row.gen, 0)];
        continue;
      }
      var obs := prev[row.id].(stale := prev[row.id].stale + 1);
      next := next[row.id := obs];
      if obs.stale >= expiryPolls { expired := expired + [row.id]; }
    }
    assert rows[..|rows|] == rows;
  }

  // -------------------------------------------------------------- any run of passes

  ghost predicate UniqueIds(rows: seq<Row>) {
    forall i, j | 0 <= i < j < |rows| :: rows[i].id != rows[j].id
  }

  /** The row a document holds for an id. */
  function RowOf(rows: seq<Row>, id: Id): Option<Row> {
    if rows == [] then None
    else if rows[|rows| - 1].id == id then Some(rows[|rows| - 1])
    else RowOf(rows[..|rows| - 1], id)
  }

  function After(passes: seq<seq<Row>>, self: Id): Seen {
    if passes == [] then map[] else Recorded(After(passes[..|passes| - 1], self), passes[|passes| - 1], self)
  }

  /** What the last pass reports. */
  function Reported(passes: seq<seq<Row>>, expiryPolls: int, self: Id): seq<Id>
    requires passes != []
  {
    Expired(After(passes[..|passes| - 1], self), passes[|passes| - 1], expiryPolls, self)
  }

  /** The id's row is there, and the same, in each of the last `n` passes. */
  ghost predicate UnchangedFor(passes: seq<seq<Row>>, id: Id, n: nat) {
    && 0 < n <= |passes|
    && RowOf(passes[|passes| - 1], id).Some?
    && forall k | |passes| - n <= k < |passes| :: RowOf(passes[k], id) == RowOf(passes[|passes| - 1], id)
  }

  lemma {:induction false} RowOfSpec(rows: seq<Row>, id: Id)
    ensures RowOf(rows, id).Some? <==> exists i | 0 <= i < |rows| :: rows[i].id == id
    ensures RowOf(rows, id).Some? ==> RowOf(rows, id).value in rows && RowOf(rows, id).value.id == id
  {
    if rows != [] {
      var front := rows[..|rows| - 1];
      RowOfSpec(front, id);
      if exists i | 0 <= i < |front| :: front[i].id == id {
        var i :| 0 <= i < |front| && front[i].id == id;
        assert rows[i].id == id;
      }
      if rows[|rows| - 1].id != id && exists i | 0 <= i < |rows| :: rows[i].id == id {
        var i :| 0 <= i < |rows| && rows[i].id == id;
        assert front[i].id == id;
      }
    }
  }

  /** The record after a pass is what the id's row makes of the record before it. */
  lemma {:induction false} RecordedAt(prev: Seen, rows: seq<Row>, self: Id, id: Id)
    ensures id in Recorded(prev, rows, self) <==> id != self && RowOf(rows, id).Some?
    ensures id in Recorded(prev, rows, self) ==> Recorded(prev, rows, self)[id] == Observe(prev, RowOf(rows, id).value)
  {
    if rows != [] { RecordedAt(prev, rows[..|rows| - 1], self, id); }
  }

  lemma {:induction false} ExpiredAt(prev: Seen, rows: seq<Row>, expiryPolls: int, self: Id, id: Id)
    requires UniqueIds(rows)
    ensures id in Expired(prev, rows, expiryPolls, self)
            <==> id != self && RowOf(rows, id).Some? && Silent(prev, RowOf(rows, id).value, expiryPolls)
  {
    if rows != [] {
      var front := rows[..|rows| - 1];
      ExpiredAt(prev, front, expiryPolls, self, id);
      RowOfSpec(front, id);
      if rows[|rows| - 1].id == id { assert RowOf(front, id).None?; }
    }
  }

  /** `idx` lists rows in order, and they are the rows of `ids`. */
  ghost predicate Lists(rows: seq<Row>, ids: seq<Id>, idx: seq<nat>) {
    && |idx| == |ids| && (forall j, k | 0 <= j < k < |idx| :: idx[j] < idx[k])
    && (forall j | 0 <= j < |idx| :: idx[j] < |rows| && rows[idx[j]].id == ids[j])
  }

  lemma ListsNext(rows: seq<Row>, row: Row, ids: seq<Id>, idx: seq<nat>)
    requires Lists(rows, ids, idx)
    ensures Lists(rows + [row], ids, idx) && Lists(rows + [row], ids + [row.id], idx + [|rows|])
  {
  }

  /** The expired ids come once each, in the order of their rows. */
  lemma {:induction false} ExpiredInOrder(prev: Seen, rows: seq<Row>, expiryPolls: int, self: Id)
    returns (idx: seq<nat>)
    ensures Lists(rows, Expired(prev, rows, expiryPolls, self), idx)
  {
    idx := [];
    if rows != [] {
      var n := |rows| - 1;
      idx := ExpiredInOrder(prev, rows[..n], expiryPolls, self);
      ListsNext(rows[..n], rows[n], Expired(prev, rows[..n], expiryPolls, self), idx);
      assert rows == rows[..n] + [rows[n]];
      if rows[n].id != self && Silent(prev, rows[n], expiryPolls) { idx := idx + [n]; }
    }
  }

  /** How many passes in a row, up to and with the last, have shown the same row. */
  function Streak(passes: seq<seq<Row>>, id: Id): nat {
    if passes == [] then 0
    else
      var row := RowOf(passes[|passes| - 1], id);
      if row.None? then 0
      else if |passes| > 1 && RowOf(passes[|passes| - 2], id) == row then Streak(passes[..|passes| - 1], id) + 1
      else 1
  }

  lemma {:induction false} StreakIsUnchanged(passes: seq<seq<Row>>, id: Id, n: nat)
    requires n > 0
    ensures Streak(passes, id) >= n <==> UnchangedFor(passes, id, n)
    decreases |passes|
  {
    if passes != [] && RowOf(passes[|passes| - 1], id).Some? {
      var front := passes[..|passes| - 1];
      var row := RowOf(passes[|passes| - 1], id);
      assert n > 1 && UnchangedFor(passes, id, n) ==> RowOf(passes[|passes| - 2], id) == row;
      if n == 1 {
      } else if |passes| > 1 && RowOf(passes[|passes| - 2], id) == row {
        StreakIsUnchanged(front, id, n - 1);
        assert forall k | 0 <= k < |front| :: front[k] == passes[k];
        assert UnchangedFor(passes, id, n) <==> UnchangedFor(front, id, n - 1);
      }
    }
  }

  /** The recorded count is the streak, less the pass that set its baseline. */
  lemma {:induction false} StaleIsStreak(passes: seq<seq<Row>>, self: Id, id: Id)
    requires id != self
    ensures id in After(passes, self) <==> Streak(passes, id) > 0
    ensures id in After(passes, self) ==>
      var row := RowOf(passes[|passes| - 1], id);
      row.Some? && After(passes, self)[id] == Obs(row.value.inc, row.value.gen, Streak(passes, id) - 1)
  {
    if passes != [] {
      var front, last := passes[..|passes| - 1], passes[|passes| - 1];
      StaleIsStreak(front, self, id);
      RecordedAt(After(front, self), last, self, id);
      RowOfSpec(last, id);
      if |passes| > 1 {
        assert front[|front| - 1] == passes[|passes| - 2];
        RowOfSpec(passes[|passes| - 2], id);
      }
    }
  }

  /** Over any number of passes, each with unique ids, a member other than the observer is reported by
      the last pass exactly when its row was present and unchanged, incarnation and counter both, in
      each of the last `expiryPolls + 1` passes; a threshold below one acts as one. The observer is
      never reported. */
  lemma ReportedIff(passes: seq<seq<Row>>, expiryPolls: int, self: Id, id: Id)
    requires passes != [] && UniqueIds(passes[|passes| - 1])
    ensures id in Reported(passes, expiryPolls, self)
            <==> id != self && UnchangedFor(passes, id, (if expiryPolls < 1 then 1 else expiryPolls) + 1)
  {
    var front, last := passes[..|passes| - 1], passes[|passes| - 1];
    var n := if expiryPolls < 1 then 1 else expiryPolls;
    ExpiredAt(After(front, self), last, expiryPolls, self, id);
    if id != self {
      StaleIsStreak(front, self, id);
      StaleIsStreak(passes, self, id);
      StreakIsUnchanged(passes, id, n + 1);
      RecordedAt(After(front, self), last, self, id);
    }
  }

  /** A member that comes back under a new incarnation starts over, even on an equal counter. */
  lemma RejoinStartsOver(passes: seq<seq<Row>>, expiryPolls: int, self: Id, id: Id)
    requires |passes| > 1 && UniqueIds(passes[|passes| - 1])
    requires var a, b := RowOf(passes[|passes| - 2], id), RowOf(passes[|passes| - 1], id);
             a.Some? && b.Some? && a.value.gen == b.value.gen && a.value.inc != b.value.inc
    ensures id !in Reported(passes, expiryPolls, self)
    ensures id != self ==> id in After(passes, self) && After(passes, self)[id].stale == 0
  {
    ReportedIff(passes, expiryPolls, self, id);
    if id != self { StaleIsStreak(passes, self, id); }
    var n := (if expiryPolls < 1 then 1 else expiryPolls) + 1;
    assert UnchangedFor(passes, id, n) ==> RowOf(passes[|passes| - 2], id) == RowOf(passes[|passes| - 1], id);
  }
}
