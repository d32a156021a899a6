/** The lexicographic byte order that Go's string comparison, `sort.Strings` and the Pebble key
    space all use, and the ascending sequence a set of byte strings sorts to. */
module Lex {
  import opened Basics

  /** `a` sorts strictly before `b`. */
  predicate Less(a: Bytes, b: Bytes) {
    |b| > 0 && (|a| == 0 || a[0] < b[0] || (a[0] == b[0] && Less(a[1..], b[1..])))
  }

  lemma {:induction false} LessIrreflexive(a: Bytes)
    ensures !Less(a, a)
  {
    if |a| > 0 {
      LessIrreflexive(a[1..]);
    }
  }

  lemma {:induction false} LessTransitive(a: Bytes, b: Bytes, c: Bytes)
    requires Less(a, b) && Less(b, c)
    ensures Less(a, c)
  {
    if |a| > 0 && a[0] == b[0] == c[0] {
      LessTransitive(a[1..], b[1..], c[1..]);
    }
  }

  lemma {:induction false} LessTotal(a: Bytes, b: Bytes)
    ensures Less(a, b) || a == b || Less(b, a)
  {
    if |a| > 0 && |b| > 0 && a[0] == b[0] {
      LessTotal(a[1..], b[1..]);
      assert a == [a[0]] + a[1..] && b == [b[0]] + b[1..];
    }
  }

  lemma LessAsymmetric(a: Bytes, b: Bytes)
    requires Less(a, b)
    ensures !Less(b, a)
  {
    if Less(b, a) {
      LessTransitive(a, b, a);
      LessIrreflexive(a);
    }
  }

  ghost predicate Ascending(q: seq<Bytes>) {
    forall i, j | 0 <= i < j < |q| :: Less(q[i], q[j])
  }

  /** A set of byte strings has one ascending enumeration. */
  lemma {:induction false} AscendingUnique(p: seq<Bytes>, q: seq<Bytes>)
    requires Ascending(p) && Ascending(q)
    requires Elems(p) == Elems(q)
    ensures p == q
  {
    assert forall i | 0 <= i < |p| :: p[i] in Elems(q);
    assert forall i | 0 <= i < |q| :: q[i] in Elems(p);
    if |p| > 0 && |q| > 0 {
      assert p[0] in Elems(q) && q[0] in Elems(p);
      HeadsAgree(p, q);
      forall x | x in Elems(p[1..]) ensures x in Elems(q[1..]) { TailMember(p, q, x); }
      forall x | x in Elems(q[1..]) ensures x in Elems(p[1..]) { TailMember(q, p, x); }
      AscendingUnique(p[1..], q[1..]);
      assert p == [p[0]] + p[1..] && q == [q[0]] + q[1..];
    }
  }

  lemma HeadsAgree(p: seq<Bytes>, q: seq<Bytes>)
    requires |p| > 0 && |q| > 0 && Ascending(p) && Ascending(q)
    requires p[0] in q && q[0] in p
    ensures p[0] == q[0]
  {
    if p[0] != q[0] {
      LessAsymmetric(p[0], q[0]);
    }
  }

  lemma TailMember(p: seq<Bytes>, q: seq<Bytes>, x: Bytes)
    requires |p| > 0 && |q| > 0 && Ascending(p) && p[0] == q[0]
    requires Elems(p) == Elems(q) && x in p[1..]
    ensures x in q[1..]
  {
    var i :| 0 <= i < |p[1..]| && p[1..][i] == x;
    assert p[i + 1] == x && x in Elems(p);
    LessIrreflexive(x);
    assert Less(p[0], p[i + 1]);
  }

  /** `sort.Strings` over the keys of a map: the one ascending enumeration of `keys`. */
  method Sort(keys: set<Bytes>) returns (q: seq<Bytes>)
    ensures Ascending(q) && Elems(q) == keys
  {
    q := [];
    var todo := keys;
    while todo != {}
      invariant todo <= keys
      invariant Ascending(q) && Elems(q) == keys - todo
      decreases todo
    {
      var k :| k in todo;
      todo := todo - {k};
      q := Insert(q, k);
    }
  }

  /** One insertion step of the sort. */
  method Insert(q: seq<Bytes>, k: Bytes) returns (r: seq<Bytes>)
    requires Ascending(q) && k !in q
    ensures Ascending(r) && Elems(r) == Elems(q) + {k}
  {
    var i := 0;
    while i < |q| && Less(q[i], k)
      invariant 0 <= i <= |q|
      invariant forall j | 0 <= j < i :: Less(q[j], k)
    {
      i := i + 1;
    }
    r := q[..i] + [k] + q[i..];
    assert q == q[..i] + q[i..];
    if i < |q| {
      LessTotal(q[i], k);
      assert q[i] in q;
      forall j | i < j < |q| ensures Less(k, q[j]) { LessTransitive(k, q[i], q[j]); }
    }
  }
}
