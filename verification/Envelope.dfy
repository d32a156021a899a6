/** The last-writer-wins value envelope: the stamp order and the binary form
    magic(1) | timestamp_be(8) | nodeid_len_be(2) | nodeid | payload. */
module Envelope {
  import opened Basics
  import opened Lex

  const MAX_U64 := 0xFFFF_FFFF_FFFF_FFFF

  type U64 = n: int | 0 <= n <= MAX_U64

  const MAGIC: Byte := 0xE0

  datatype Stamp = Stamp(ts: U64, node: Bytes)

  /** An empty payload is the tombstone shape. */
  datatype Envelope = Envelope(stamp: Stamp, payload: Bytes)

  /** The zero `Stamp` a value written before envelopes existed is read with. */
  const ZERO_STAMP := Stamp(0, [])

  // ------------------------------------------------------------- stamp order

  /** `a` wins last-writer-wins against `b`: later timestamp, then greater node id. */
  predicate Greater(a: Stamp, b: Stamp) {
    if a.ts != b.ts then a.ts > b.ts else Less(b.node, a.node)
  }

  lemma GreaterIsStrictTotalOrder(a: Stamp, b: Stamp, c: Stamp)
    ensures !Greater(a, a)
    ensures Greater(a, b) ==> !Greater(b, a)
    ensures Greater(a, b) && Greater(b, c) ==> Greater(a, c)
    ensures Greater(a, b) || a == b || Greater(b, a)
  {
    LessIrreflexive(a.node);
    LessTotal(a.node, b.node);
    if Less(a.node, b.node) { LessAsymmetric(a.node, b.node); }
    if Less(b.node, a.node) { LessAsymmetric(b.node, a.node); }
    if Less(b.node, a.node) && Less(c.node, b.node) { LessTransitive(c.node, b.node, a.node); }
  }

  // ------------------------------------------------------ big-endian numbers

  function Pow256(w: nat): (p: nat)
    ensures p > 0
  {
    if w == 0 then 1 else 256 * Pow256(w - 1)
  }

  /** The low `w` bytes of `n`, most significant first. */
  function BigEndian(n: nat, w: nat): (b: Bytes)
    ensures |b| == w
  {
    if w == 0 then [] else BigEndian(n / 256, w - 1) + [n % 256]
  }

  function FromBigEndian(b: Bytes): (n: nat)
  {
    if |b| == 0 then 0 else 256 * FromBigEndian(b[..|b| - 1]) + b[|b| - 1]
  }

  /** Reading back `w` written bytes gives the number modulo 256^w. */
  lemma {:induction false} BigEndianRoundTrip(n: nat, w: nat)
    requires n < Pow256(w)
    ensures FromBigEndian(BigEndian(n, w)) == n
  {
    if w > 0 {
      assert n / 256 < Pow256(w - 1);
      BigEndianRoundTrip(n / 256, w - 1);
      var b := BigEndian(n, w);
      assert b[..|b| - 1] == BigEndian(n / 256, w - 1);
    }
  }

  lemma {:induction false} FromBigEndianRoundTrip(b: Bytes)
    ensures FromBigEndian(b) < Pow256(|b|)
    ensures BigEndian(FromBigEndian(b), |b|) == b
  {
    if |b| > 0 {
      var front := b[..|b| - 1];
      FromBigEndianRoundTrip(front);
      assert b == front + [b[|b| - 1]];
    }
  }

  lemma Widths()
    ensures Pow256(2) == 65536 && Pow256(8) == MAX_U64 + 1
  {
  }

  // ------------------------------------------------------------------- codec

  /** The node id length is written as a uint16, so a longer id is truncated in the length field
      only. */
  function Encode(e: Envelope): Bytes {
    [MAGIC] + BigEndian(e.stamp.ts, 8) + BigEndian(|e.stamp.node| % 65536, 2)
      + e.stamp.node + e.payload
  }

  /** A parsed header, or the corruption error of a magic-prefixed buffer whose header does not
      parse. `start` 0 is the no-magic case: the whole buffer is the payload. */
  datatype Header = Header(stamp: Stamp, start: nat) | CorruptHeader

  function DecodeStamp(b: Bytes): (h: Header)
    ensures h.Header? ==> h.start <= |b|
  {
    if |b| == 0 || b[0] != MAGIC then Header(ZERO_STAMP, 0)
    else if |b| < 11 then CorruptHeader
    else
      var ts := FromBigEndian(b[1..9]);
      var end := 11 + FromBigEndian(b[9..11]);
      FromBigEndianRoundTrip(b[1..9]);
      Widths();
      if end > |b| then CorruptHeader else Header(Stamp(ts, b[11..end]), end)
  }

  datatype Decoded = Ok(env: Envelope) | Corrupt

  function Decode(b: Bytes): Decoded {
    match DecodeStamp(b)
    case CorruptHeader => Corrupt
    case Header(stamp, start) =>
      if start == 0 then Ok(Envelope(ZERO_STAMP, b)) else Ok(Envelope(stamp, b[start..]))
  }

  lemma EncodeParts(e: Envelope)
    ensures
      var b, len := Encode(e), |e.stamp.node|;
      && |b| == 11 + len + |e.payload| && b[0] == 0xE0
      && b[1..9] == BigEndian(e.stamp.ts, 8) && b[9..11] == BigEndian(len % 65536, 2)
      && b[11..11 + len] == e.stamp.node && b[11 + len..] == e.payload
  {
  }

  /** What decoding an encoded envelope yields, whatever the node id's length. */
  lemma DecodeOfEncode(e: Envelope)
    ensures var n := |e.stamp.node| % 65536;
            Decode(Encode(e))
            == Ok(Envelope(Stamp(e.stamp.ts, e.stamp.node[..n]), e.stamp.node[n..] + e.payload))
  {
    var b := Encode(e);
    var n := |e.stamp.node| % 65536;
    Widths();
    BigEndianRoundTrip(e.stamp.ts, 8);
    BigEndianRoundTrip(n, 2);
    EncodeParts(e);
    var end := 11 + |e.stamp.node|;
    assert b[11..11 + n] == b[11..end][..n];
    assert b[11 + n..] == b[11..end][n..] + b[end..];
  }

  lemma FromTwo(b: Bytes)
    requires |b| == 2
    ensures FromBigEndian(b) == 0x100 * (b[0] as int) + b[1]
  {
    assert b[..1] == [b[0]] && [b[0]][..0] == [];
    assert FromBigEndian([b[0]]) == b[0];
  }

  lemma FromFour(b: Bytes)
    requires |b| == 4
    ensures FromBigEndian(b) == 0x10000 * FromBigEndian(b[..2]) + FromBigEndian(b[2..])
  {
    FromTwo(b[2..]);
    assert b[..3][..2] == b[..2];
    assert FromBigEndian(b[..3]) == 256 * FromBigEndian(b[..2]) + b[2];
  }

  lemma FromEight(b: Bytes)
    requires |b| == 8
    ensures FromBigEndian(b) == 0x1_0000_0000 * FromBigEndian(b[..4]) + FromBigEndian(b[4..])
  {
    FromFour(b[4..]);
    FromTwo(b[4..][..2]);
    FromTwo(b[4..][2..]);
    assert b[..5][..4] == b[..4] && b[..6][..5] == b[..5] && b[..7][..6] == b[..6];
    assert FromBigEndian(b[..5]) == 256 * FromBigEndian(b[..4]) + b[4];
    assert FromBigEndian(b[..6]) == 256 * FromBigEndian(b[..5]) + b[5];
    assert FromBigEndian(b[..7]) == 256 * FromBigEndian(b[..6]) + b[6];
  }

  lemma EightBytes(t: Bytes)
    requires |t| == 8
    ensures FromBigEndian(t)
            == 0x100_0000_0000_0000 * (t[0] as int) + 0x1_0000_0000_0000 * (t[1] as int)
               + 0x100_0000_0000 * (t[2] as int) + 0x1_0000_0000 * (t[3] as int)
               + 0x100_0000 * (t[4] as int) + 0x1_0000 * (t[5] as int) + 0x100 * (t[6] as int) + t[7]
  {
    FromEight(t);
    FromFour(t[..4]);
    FromFour(t[4..]);
    FromTwo(t[..4][..2]);
    FromTwo(t[..4][2..]);
    FromTwo(t[4..][..2]);
    FromTwo(t[4..][2..]);
  }

  /** The wire format: the magic byte, the timestamp in eight bytes and the id length in two, most
      significant first, then the id and the payload. */
  lemma EncodeLayout(e: Envelope)
    ensures
      var b, len := Encode(e), |e.stamp.node|;
      && |b| == 11 + len + |e.payload| && b[0] == 0xE0
      && e.stamp.ts == 0x100_0000_0000_0000 * (b[1] as int) + 0x1_0000_0000_0000 * (b[2] as int)
                       + 0x100_0000_0000 * (b[3] as int) + 0x1_0000_0000 * (b[4] as int)
                       + 0x100_0000 * (b[5] as int) + 0x1_0000 * (b[6] as int) + 0x100 * (b[7] as int) + b[8]
      && len % 65536 == 0x100 * (b[9] as int) + b[10]
      && b[11..11 + len] == e.stamp.node && b[11 + len..] == e.payload
  {
    var b, len := Encode(e), |e.stamp.node|;
    EncodeParts(e);
    Widths();
    BigEndianRoundTrip(e.stamp.ts, 8);
    BigEndianRoundTrip(len % 65536, 2);
    FromTwo(b[9..11]);
    EightBytes(b[1..9]);
  }

  /** The codec is lossless exactly for node ids a uint16 can measure. */
  lemma RoundTripIff(e: Envelope)
    ensures Decode(Encode(e)) == Ok(e) <==> |e.stamp.node| < 65536
  {
    DecodeOfEncode(e);
    var n := |e.stamp.node| % 65536;
    if |e.stamp.node| < 65536 {
      assert e.stamp.node[..|e.stamp.node|] == e.stamp.node;
    } else {
      assert |e.stamp.node[..n]| < |e.stamp.node|;
    }
  }

  /** Every buffer that parses as an envelope is the encoding of what it parses to; every other
      buffer is corrupt or is its own zero-stamp payload. */
  lemma DecodeIsCanonical(b: Bytes)
    ensures |b| > 0 && b[0] == MAGIC && Decode(b).Ok?
            ==> Encode(Decode(b).env) == b && |Decode(b).env.stamp.node| < 65536
    ensures |b| == 0 || b[0] != MAGIC ==> Decode(b) == Ok(Envelope(ZERO_STAMP, b))
    ensures DecodeStamp(b).CorruptHeader? <==> Decode(b).Corrupt?
    ensures Decode(b).Ok? ==> Decode(b).env == Envelope(DecodeStamp(b).stamp, b[DecodeStamp(b).start..])
  {
    if |b| >= 11 && b[0] == MAGIC && Decode(b).Ok? {
      var end := 11 + FromBigEndian(b[9..11]);
      FromBigEndianRoundTrip(b[1..9]);
      FromBigEndianRoundTrip(b[9..11]);
      Widths();
      var e := Decode(b).env;
      assert e == Envelope(Stamp(FromBigEndian(b[1..9]), b[11..end]), b[end..]);
      assert |e.stamp.node| % 65536 == FromBigEndian(b[9..11]);
      assert BigEndian(e.stamp.ts, 8) == b[1..9] && BigEndian(|e.stamp.node| % 65536, 2) == b[9..11];
      assert b == [b[0]] + b[1..9] + b[9..11] + b[11..end] + b[end..];
    }
    assert b[0..] == b;
  }

  /** The stamp a stored value competes with: the zero stamp for a bare or unreadable value. */
  function StampOf(b: Bytes): Stamp {
    match Decode(b) case Ok(e) => e.stamp case Corrupt => ZERO_STAMP
  }
}

/** The node's monotone stamp source: a high-water mark over everything issued or observed. */
module StampClock {
  import opened Envelope

  /** Ratchet the mark with a stamp seen. */
  function Observed(last: U64, ts: U64): U64 {
    if ts <= last then last else ts
  }

  /** max(wall, last + 1), saturating at the ceiling instead of wrapping. */
  function NextStamp(last: U64, wall: U64): U64 {
    if wall > last then wall else if last == MAX_U64 then MAX_U64 else last + 1
  }

  /** An issued stamp strictly exceeds the mark unless the mark already sits at the ceiling, and
      issuing never lowers the mark. */
  lemma NextStampDominatesIff(last: U64, wall: U64)
    ensures NextStamp(last, wall) > last <==> last < MAX_U64
    ensures NextStamp(last, wall) >= last && NextStamp(last, wall) >= wall
  {
  }

  /** The draw is the least stamp that exceeds the mark and is not behind the wall clock. */
  lemma NextStampIsLeast(last: U64, wall: U64, t: U64)
    requires t > last && t >= wall
    ensures NextStamp(last, wall) <= t
  {
  }

  /** What happens to one clock: it draws a stamp at a wall reading, or observes one. */
  datatype Tick = Issue(wall: U64) | See(ts: U64)

  function MarkAfter(last: U64, ticks: seq<Tick>): U64 {
    if ticks == [] then last
    else
      var m := MarkAfter(last, ticks[..|ticks| - 1]);
      match ticks[|ticks| - 1] case Issue(wall) => NextStamp(m, wall) case See(ts) => Observed(m, ts)
  }

  /** The stamp drawn by tick `i`. */
  function Drawn(last: U64, ticks: seq<Tick>, i: nat): U64
    requires i < |ticks| && ticks[i].Issue?
  {
    NextStamp(MarkAfter(last, ticks[..i]), ticks[i].wall)
  }

  lemma MarkStep(last: U64, ticks: seq<Tick>, i: nat)
    requires i < |ticks|
    ensures MarkAfter(last, ticks[..i + 1])
            == match ticks[i]
               case Issue(wall) => NextStamp(MarkAfter(last, ticks[..i]), wall)
               case See(ts) => Observed(MarkAfter(last, ticks[..i]), ts)
  {
    assert ticks[..i + 1][..i] == ticks[..i];
  }

  lemma {:induction false} MarkNeverFalls(last: U64, ticks: seq<Tick>, i: nat, j: nat)
    requires i <= j <= |ticks|
    ensures MarkAfter(last, ticks[..i]) <= MarkAfter(last, ticks[..j])
    decreases j
  {
    if i < j {
      MarkNeverFalls(last, ticks, i, j - 1);
      MarkStep(last, ticks, j - 1);
      if ticks[j - 1].Issue? { NextStampDominatesIff(MarkAfter(last, ticks[..j - 1]), ticks[j - 1].wall); }
    }
  }

  /** Of two draws of one clock, whatever it observes in between, the later is the larger exactly when
      the earlier was below the ceiling. */
  lemma DrawsRiseIff(last: U64, ticks: seq<Tick>, i: nat, j: nat)
    requires i < j < |ticks| && ticks[i].Issue? && ticks[j].Issue?
    ensures Drawn(last, ticks, i) < Drawn(last, ticks, j) <==> Drawn(last, ticks, i) < MAX_U64
  {
    MarkStep(last, ticks, i);
    MarkNeverFalls(last, ticks, i + 1, j);
    NextStampDominatesIff(MarkAfter(last, ticks[..j]), ticks[j].wall);
  }

  /** And it stays below as long as the walls and the stamps seen do by the number of ticks: the mark is
      never more than one ahead of them per tick. */
  lemma {:induction false} MarkStaysNear(last: U64, ticks: seq<Tick>, high: U64, i: nat)
    requires i <= |ticks| && last <= high && high + i <= MAX_U64
    requires forall t | t in ticks :: (match t case Issue(wall) => wall case See(ts) => ts) <= high
    ensures MarkAfter(last, ticks[..i]) <= high + i
  {
    if i > 0 {
      MarkStaysNear(last, ticks, high, i - 1);
      MarkStep(last, ticks, i - 1);
      assert ticks[i - 1] in ticks;
      if ticks[i - 1].Issue? {
        NextStampIsLeast(MarkAfter(last, ticks[..i - 1]), ticks[i - 1].wall, high + i);
      }
    }
  }

  class Clock {
    var last: U64

    constructor ()
      ensures last == 0
    {
      last := 0;
    }

    method Next(wall: U64) returns (ts: U64)
      modifies this
      ensures ts == NextStamp(old(last), wall) && last == ts
    {
      var next := wall;
      if next <= last {
        if last == MAX_U64 { return MAX_U64; }
        next := last + 1;
      }
      last := next;
      ts := next;
    }

    method Observe(ts: U64)
      modifies this
      ensures last == Observed(old(last), ts)
    {
      if ts > last { last := ts; }
    }
  }
}
