/**
 * Transcript indices: sets of positions kept as sorted ranges with gaps between them, so that
 * equal sets are equal values. Set operations are given by their meaning on positions.
 */
module Ranges {
  datatype Range = Range(start: nat, end: nat)

  predicate Normal(idx: seq<Range>) {
    && (forall i :: 0 <= i < |idx| ==> idx[i].start < idx[i].end)
    && (forall i, j :: 0 <= i < j < |idx| ==> idx[i].end < idx[j].start)
  }

  type Idx = idx: seq<Range> | Normal(idx) witness []

  predicate In(r: Range, x: nat) {
    r.start <= x < r.end
  }

  predicate Has(idx: seq<Range>, x: nat) {
    exists i :: 0 <= i < |idx| && In(idx[i], x)
  }

  function End(idx: seq<Range>): nat {
    if idx == [] then 0 else idx[|idx| - 1].end
  }

  predicate InBounds(idx: seq<Range>, n: nat) {
    forall i :: 0 <= i < |idx| ==> idx[i].end <= n
  }

  lemma BoundsByEnd(idx: Idx, n: nat)
    ensures InBounds(idx, n) <==> End(idx) <= n
  {
  }

  lemma HasBelowEnd(idx: Idx, x: nat)
    requires Has(idx, x)
    ensures x < End(idx)
  {
  }

  /** Number of positions. */
  function Len(idx: seq<Range>): nat
    requires forall i :: 0 <= i < |idx| ==> idx[i].start < idx[i].end
    decreases |idx|
  {
    if idx == [] then 0 else Len(idx[..|idx| - 1]) + (idx[|idx| - 1].end - idx[|idx| - 1].start)
  }

  lemma PrefixNormal(idx: Idx, n: nat)
    requires n <= |idx|
    ensures Normal(idx[..n])
  {
  }

  lemma {:induction false} LenUpTo(idx: Idx, n: nat)
    requires n < |idx|
    ensures Len(idx[..n + 1]) == Len(idx[..n]) + (idx[n].end - idx[n].start)
  {
    assert idx[..n + 1][..n] == idx[..n];
  }

  // ---- The items at the indexed positions ----

  /** The items at the indexed positions, range after range. */
  function Gather<T>(data: seq<T>, idx: seq<Range>): (r: seq<T>)
    requires forall i :: 0 <= i < |idx| ==> idx[i].start < idx[i].end
    requires InBounds(idx, |data|)
    ensures |r| == Len(idx)
    decreases |idx|
  {
    if idx == [] then []
    else
      var n := |idx| - 1;
      Gather(data, idx[..n]) + data[idx[n].start..idx[n].end]
  }

  lemma GatherUpTo<T>(data: seq<T>, idx: Idx, n: nat)
    requires n < |idx| && InBounds(idx[..n + 1], |data|)
    ensures InBounds(idx[..n], |data|)
    ensures Gather(data, idx[..n + 1]) == Gather(data, idx[..n]) + data[idx[n].start..idx[n].end]
  {
    assert idx[..n + 1][..n] == idx[..n];
    assert idx[..n + 1][n] == idx[n];
  }

  function Counting(n: nat): (r: seq<nat>)
    ensures |r| == n && forall i :: 0 <= i < n ==> r[i] == i
  {
    seq(n, i requires 0 <= i < n => i)
  }

  lemma GatherLast<T>(data: seq<T>, idx: Idx)
    requires idx != [] && InBounds(idx, |data|)
    ensures var m := |idx| - 1;
      && Normal(idx[..m]) && InBounds(idx[..m], |data|)
      && Gather(data, idx) == Gather(data, idx[..m]) + data[idx[m].start..idx[m].end]
  {
  }

  /** The items gathered are the ones at the gathered positions. */
  lemma {:induction false} GatherPicks<T>(data: seq<T>, idx: Idx, i: nat)
    requires InBounds(idx, |data|) && i < Len(idx)
    ensures var ps := Gather(Counting(|data|), idx); 0 <= ps[i] < |data| && Gather(data, idx)[i] == data[ps[i]]
    decreases |idx|
  {
    hide Gather;
    GatherLast(data, idx);
    GatherLast(Counting(|data|), idx);
    if i < Len(idx[..|idx| - 1]) {
      GatherPicks(data, idx[..|idx| - 1], i);
    }
  }

  /** Gathered positions are exactly the indexed ones. */
  lemma {:induction false} GatherHas(n: nat, idx: Idx, x: nat)
    requires InBounds(idx, n)
    ensures x in Gather(Counting(n), idx) <==> Has(idx, x)
    decreases |idx|
  {
    hide Gather, Has;
    if idx == [] {
      NoneHas(x);
      GatherNone(Counting(n));
    } else {
      var m := |idx| - 1;
      GatherLast(Counting(n), idx);
      GatherHas(n, idx[..m], x);
      HasLast(idx, x);
      SliceCounts(n, idx[m], x);
    }
  }

  lemma SliceCounts(n: nat, r: Range, x: nat)
    requires r.start <= r.end <= n
    ensures x in Counting(n)[r.start..r.end] <==> In(r, x)
  {
    var added := Counting(n)[r.start..r.end];
    if In(r, x) {
      assert added[x - r.start] == x;
    }
  }

  lemma GatherNone<T>(data: seq<T>)
    ensures Gather(data, []) == []
  {
  }

  /** And they are strictly increasing. */
  lemma {:induction false} GatherIncreases(n: nat, idx: Idx, i: nat, j: nat)
    requires InBounds(idx, n) && i < j < Len(idx)
    ensures Gather(Counting(n), idx)[i] < Gather(Counting(n), idx)[j]
    decreases |idx|
  {
    hide Gather;
    var m := |idx| - 1;
    GatherLast(Counting(n), idx);
    var before := Gather(Counting(n), idx[..m]);
    if j < |before| {
      GatherIncreases(n, idx[..m], i, j);
    } else if i < |before| {
      assert before[i] in before;
      GatherHas(n, idx[..m], before[i]);
      BeforeLast(idx, before[i]);
    }
  }

  lemma HasUpTo(idx: Idx, n: nat)
    requires n < |idx|
    ensures forall x: nat :: Has(idx[..n + 1], x) <==> Has(idx[..n], x) || In(idx[n], x)
  {
    forall x: nat
      ensures Has(idx[..n + 1], x) <==> Has(idx[..n], x) || In(idx[n], x)
    {
      if Has(idx[..n + 1], x) {
        var i :| 0 <= i < n + 1 && In(idx[..n + 1][i], x);
        if i < n {
          assert idx[..n][i] == idx[i];
        }
      }
      if Has(idx[..n], x) {
        var i :| 0 <= i < n && In(idx[..n][i], x);
        assert idx[..n + 1][i] == idx[i];
      }
      if In(idx[n], x) {
        assert idx[..n + 1][n] == idx[n];
      }
    }
  }

  // ---- Canonical form ----

  /** Equal position sets are equal indices. */
  lemma {:induction false} Canonical(a: Idx, b: Idx)
    requires forall x: nat :: Has(a, x) <==> Has(b, x)
    ensures a == b
    decreases |a| + |b|
  {
    if a != [] && b != [] {
      LastAgree(a, b);
      LastAgree(b, a);
      var m, n := |a| - 1, |b| - 1;
      PrefixNormal(a, m);
      PrefixNormal(b, n);
      HasUpTo(a, m);
      HasUpTo(b, n);
      assert a[..m + 1] == a && b[..n + 1] == b;
      forall x: nat
        ensures Has(a[..m], x) <==> Has(b[..n], x)
      {
        BeforeLast(a, x);
        BeforeLast(b, x);
      }
      Canonical(a[..m], b[..n]);
      assert a == a[..m] + [a[m]] && b == b[..n] + [b[n]];
    } else if a != [] {
      assert In(a[0], a[0].start);
      assert Has(a, a[0].start);
    } else if b != [] {
      assert In(b[0], b[0].start);
      assert Has(b, b[0].start);
    }
  }

  /** Positions of the other ranges lie below the last one. */
  lemma BeforeLast(a: Idx, x: nat)
    requires a != []
    ensures Has(a[..|a| - 1], x) ==> x + 1 < a[|a| - 1].start
  {
  }

  lemma LastAgree(a: Idx, b: Idx)
    requires a != [] && b != [] && forall x: nat :: Has(a, x) <==> Has(b, x)
    ensures a[|a| - 1] == b[|b| - 1]
  {
    var x, y := a[|a| - 1], b[|b| - 1];
    LastAt(a, x.end - 1);
    LastAt(b, x.end - 1);
    LastAt(a, y.end - 1);
    LastAt(b, y.end - 1);
    assert x.end == y.end;
    LastAt(a, x.start);
    LastAt(b, x.start);
    LastAt(a, y.start);
    LastAt(b, y.start);
    if y.start > 0 {
      LastAt(a, y.start - 1);
      LastAt(b, y.start - 1);
    }
    if x.start > 0 {
      LastAt(a, x.start - 1);
      LastAt(b, x.start - 1);
    }
  }

  /** Around the last range: inside it, just before it, and beyond it. */
  lemma LastAt(a: Idx, x: nat)
    requires a != []
    ensures var r := a[|a| - 1];
      && (In(r, x) ==> Has(a, x))
      && (x + 1 == r.start ==> !Has(a, x))
      && (x >= r.end ==> !Has(a, x))
  {
  }

  // ---- Set operations ----

  /** A position past all others, in a range of its own or at the end of the last one. */
  function Grow(r: Idx, x: nat): (t: Idx)
    requires InBounds(r, x)
    ensures InBounds(t, x + 1)
  {
    var m := |r| - 1;
    if r != [] && r[m].end == x then
      var t := r[m := Range(r[m].start, x + 1)];
      assert forall i :: 0 <= i < m ==> t[i] == r[i];
      t
    else
      var t := r + [Range(x, x + 1)];
      BoundsByEnd(r, x);
      t
  }

  lemma GrowHas(r: Idx, x: nat, y: nat)
    requires InBounds(r, x)
    ensures Has(Grow(r, x), y) <==> Has(r, y) || y == x
  {
    hide Has;
    var t := Grow(r, x);
    HasLast(t, y);
    var m := |r| - 1;
    if r != [] && r[m].end == x {
      HasLast(r, y);
      assert t[..m] == r[..m] && t[m] == Range(r[m].start, x + 1);
    } else {
      assert t[..|r|] == r && t[|r|] == Range(x, x + 1);
    }
  }

  lemma HasLast(idx: Idx, x: nat)
    requires idx != []
    ensures Has(idx, x) <==> Has(idx[..|idx| - 1], x) || In(idx[|idx| - 1], x)
  {
    hide Has;
    HasUpTo(idx, |idx| - 1);
    assert idx[..|idx|] == idx;
  }

  /** The positions below `n` that satisfy `p`. */
  function Where(p: nat -> bool, n: nat): (r: Idx)
    ensures InBounds(r, n)
    decreases n
  {
    if n == 0 then []
    else
      var r := Where(p, n - 1);
      if p(n - 1) then Grow(r, n - 1) else r
  }

  lemma {:induction false} WhereHas(p: nat -> bool, n: nat, x: nat)
    ensures Has(Where(p, n), x) <==> x < n && p(x)
    decreases n
  {
    hide Has, Grow;
    if n == 0 {
      NoneHas(x);
    } else {
      WhereHas(p, n - 1, x);
      GrowHas(Where(p, n - 1), n - 1, x);
    }
  }

  lemma NoneHas(x: nat)
    ensures !Has([], x)
  {
  }

  function Max(a: nat, b: nat): nat {
    if a < b then b else a
  }

  function Union(a: Idx, b: Idx): Idx {
    Where((x: nat) => Has(a, x) || Has(b, x), Max(End(a), End(b)))
  }

  function Difference(a: Idx, b: Idx): Idx {
    Where((x: nat) => Has(a, x) && !Has(b, x), End(a))
  }

  predicate Subset(a: Idx, b: Idx) {
    Difference(a, b) == []
  }

  lemma UnionHas(a: Idx, b: Idx, x: nat)
    ensures Has(Union(a, b), x) <==> Has(a, x) || Has(b, x)
  {
    WhereHas((x: nat) => Has(a, x) || Has(b, x), Max(End(a), End(b)), x);
    if Has(a, x) { HasBelowEnd(a, x); }
    if Has(b, x) { HasBelowEnd(b, x); }
  }

  lemma DifferenceHas(a: Idx, b: Idx, x: nat)
    ensures Has(Difference(a, b), x) <==> Has(a, x) && !Has(b, x)
  {
    WhereHas((x: nat) => Has(a, x) && !Has(b, x), End(a), x);
    if Has(a, x) { HasBelowEnd(a, x); }
  }

  lemma SubsetHas(a: Idx, b: Idx)
    ensures Subset(a, b) <==> forall x: nat :: Has(a, x) ==> Has(b, x)
  {
    var d := Difference(a, b);
    if d == [] {
      forall x: nat | Has(a, x)
        ensures Has(b, x)
      {
        DifferenceHas(a, b, x);
      }
    } else {
      assert In(d[0], d[0].start) && Has(d, d[0].start);
      DifferenceHas(a, b, d[0].start);
    }
  }

  lemma UnionBounds(a: Idx, b: Idx, n: nat)
    requires InBounds(a, n) && InBounds(b, n)
    ensures InBounds(Union(a, b), n)
  {
    BoundsByEnd(a, n);
    BoundsByEnd(b, n);
  }

  lemma DifferenceBounds(a: Idx, b: Idx, n: nat)
    requires InBounds(a, n)
    ensures InBounds(Difference(a, b), n)
  {
    BoundsByEnd(a, n);
  }

  function Between(start: nat, end: nat): Idx {
    if start < end then [Range(start, end)] else []
  }

  lemma BetweenHas(start: nat, end: nat, x: nat)
    ensures Has(Between(start, end), x) <==> start <= x < end
  {
    if start <= x < end {
      assert In(Between(start, end)[0], x);
    }
  }

  function Upto(n: nat): Idx {
    if n == 0 then [] else [Range(0, n)]
  }

  /** As many positions as there are below the bound is all of them. */
  lemma LenIsAll(idx: Idx, n: nat)
    requires InBounds(idx, n)
    ensures Len(idx) <= n
    ensures Len(idx) == n <==> idx == Upto(n)
  {
    LenAtMostEnd(idx);
    if idx != [] {
      assert idx[..1] == [idx[0]];
    }
    if idx == Upto(n) && n > 0 {
      assert idx[..0] == [];
    }
  }

  lemma {:induction false} LenAtMostEnd(idx: Idx)
    ensures Len(idx) <= End(idx)
    ensures Len(idx) == End(idx) ==> idx == Upto(End(idx))
    decreases |idx|
  {
    if idx != [] {
      var m := |idx| - 1;
      PrefixNormal(idx, m);
      LenAtMostEnd(idx[..m]);
      if m == 0 {
        assert idx == [idx[0]];
      }
    }
  }
}
