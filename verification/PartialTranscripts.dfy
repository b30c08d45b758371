/** Transcripts of which only some positions are authenticated: merging, filling and compression. */
module PartialTranscripts {
  import opened Bytes
  import opened Ranges
  import opened TranscriptRefs

  // ---- One direction ----

  /** The bytes of one direction, and which of them are authenticated. */
  datatype Side = Side(data: seq<byte>, authed: Idx)

  /** The data with everything outside the index zeroed. */
  function Masked(data: seq<byte>, idx: Idx): (r: seq<byte>)
    ensures |r| == |data|
  {
    seq(|data|, x requires 0 <= x < |data| => if Has(idx, x) then data[x] else 0)
  }

  /** What disclosing the index of a transcript reveals. */
  function Disclosed(data: seq<byte>, idx: Idx): Side {
    Side(Masked(data, idx), idx)
  }

  /** Newly authenticated bytes are taken over; authenticated ones are kept. */
  function Merged(a: Side, b: Side): Side
    requires |a.data| == |b.data|
  {
    Side(seq(|a.data|, x requires 0 <= x < |a.data| => if Has(b.authed, x) && !Has(a.authed, x) then b.data[x] else a.data[x]),
         Union(a.authed, b.authed))
  }

  /** Copying ranges of `src` over `dest`. */
  function Overwritten(dest: seq<byte>, src: seq<byte>, idx: Idx): (r: seq<byte>)
    requires |dest| == |src|
    ensures |r| == |dest|
  {
    seq(|dest|, x requires 0 <= x < |dest| => if Has(idx, x) then src[x] else dest[x])
  }

  function Filled(dest: seq<byte>, idx: Idx, value: byte): (r: seq<byte>)
    ensures |r| == |dest|
  {
    seq(|dest|, x requires 0 <= x < |dest| => if Has(idx, x) then value else dest[x])
  }

  /** `data` has `bytes` at the indexed positions, and is `base` elsewhere. */
  predicate Placed(data: seq<byte>, bytes: seq<byte>, idx: Idx, base: seq<byte>) {
    && |data| == |base| && InBounds(idx, |data|)
    && Gather(data, idx) == bytes
    && forall x :: 0 <= x < |data| && !Has(idx, x) ==> data[x] == base[x]
  }

  // ---- The loops over ranges ----

  lemma HasNext(idx: Idx, i: nat, x: nat)
    requires i < |idx|
    ensures Has(idx[..i + 1], x) <==> Has(idx[..i], x) || In(idx[i], x)
    ensures Normal(idx[..i]) && Normal(idx[..i + 1])
  {
    HasUpTo(idx, i);
  }

  method CopyRanges(dest: array<byte>, src: seq<byte>, idx: Idx)
    requires |src| == dest.Length && InBounds(idx, dest.Length)
    modifies dest
    ensures dest[..] == Overwritten(old(dest[..]), src, idx)
  {
    hide Has, Normal;
    ghost var was := dest[..];
    NothingHas();
    for i := 0 to |idx|
      invariant forall x: nat :: x < dest.Length ==> dest[x] == if Has(idx[..i], x) then src[x] else was[x]
    {
      var r := idx[i];
      ghost var before := dest[..];
      forall x | r.start <= x < r.end {
        dest[x] := src[x];
      }
      forall x: nat | x < dest.Length
        ensures dest[x] == if Has(idx[..i + 1], x) then src[x] else was[x]
      {
        HasNext(idx, i, x);
        assert dest[x] == if In(r, x) then src[x] else before[x];
      }
    }
    assert idx[..|idx|] == idx;
  }

  lemma NothingHas()
    ensures forall x: nat :: !Has([], x)
  {
  }

  method FillRanges(dest: array<byte>, idx: Idx, value: byte)
    requires InBounds(idx, dest.Length)
    modifies dest
    ensures dest[..] == Filled(old(dest[..]), idx, value)
  {
    hide Has, Normal;
    ghost var was := dest[..];
    NothingHas();
    for i := 0 to |idx|
      invariant forall x: nat :: x < dest.Length ==> dest[x] == if Has(idx[..i], x) then value else was[x]
    {
      var r := idx[i];
      ghost var before := dest[..];
      forall x | r.start <= x < r.end {
        dest[x] := value;
      }
      forall x: nat | x < dest.Length
        ensures dest[x] == if Has(idx[..i + 1], x) then value else was[x]
      {
        HasNext(idx, i, x);
        assert dest[x] == if In(r, x) then value else before[x];
      }
    }
    assert idx[..|idx|] == idx;
  }

  /** Spreads consecutive bytes over the ranges, with a running offset. */
  method ScatterRanges(dest: array<byte>, bytes: seq<byte>, idx: Idx)
    requires |bytes| == Len(idx) && InBounds(idx, dest.Length)
    modifies dest
    ensures Placed(dest[..], bytes, idx, old(dest[..]))
  {
    hide Gather, Has, Placed, Len;
    ghost var was := dest[..];
    LenNone(idx);
    var offset := 0;
    NothingPlaced(was);
    for i := 0 to |idx|
      invariant Normal(idx[..i]) && offset == Len(idx[..i]) <= |bytes|
      invariant Placed(dest[..], bytes[..offset], idx[..i], was)
    {
      var r := idx[i];
      ghost var before := dest[..];
      PrefixNormal(idx, i + 1);
      LenUpTo(idx, i);
      LenPrefix(idx, i + 1);
      forall x | r.start <= x < r.end {
        dest[x] := bytes[offset + (x - r.start)];
      }
      PlacedNext(before, dest[..], bytes, idx, i, was);
      offset := offset + (r.end - r.start);
    }
    assert idx[..|idx|] == idx && bytes[..offset] == bytes;
  }

  lemma {:induction false} LenPrefix(idx: Idx, n: nat)
    requires n <= |idx|
    ensures Normal(idx[..n]) && Len(idx[..n]) <= Len(idx)
    decreases |idx| - n
  {
    PrefixNormal(idx, n);
    if n < |idx| {
      LenUpTo(idx, n);
      LenPrefix(idx, n + 1);
    } else {
      assert idx[..n] == idx;
    }
  }

  lemma LenNone(idx: Idx)
    ensures idx[..0] == [] && Normal([]) && Len([]) == 0
  {
  }

  lemma NothingPlaced(base: seq<byte>)
    ensures Placed(base, [], [], base)
  {
  }

  lemma SameSlice(a: seq<byte>, lo: nat, hi: nat, b: seq<byte>, at: nat)
    requires lo <= hi <= |a| && at + (hi - lo) <= |b|
    requires forall x :: lo <= x < hi ==> a[x] == b[at + (x - lo)]
    ensures a[lo..hi] == b[at..at + (hi - lo)]
  {
    forall i | 0 <= i < hi - lo
      ensures a[lo..hi][i] == b[at..at + (hi - lo)][i]
    {
      assert a[lo + i] == b[at + (lo + i - lo)];
    }
  }

  lemma PlacedNext(before: seq<byte>, after: seq<byte>, bytes: seq<byte>, idx: Idx, i: nat, base: seq<byte>)
    requires i < |idx| && Normal(idx[..i]) && Normal(idx[..i + 1]) && InBounds(idx, |before|)
    requires Len(idx[..i]) + (idx[i].end - idx[i].start) <= |bytes|
    requires Placed(before, bytes[..Len(idx[..i])], idx[..i], base) && |after| == |before|
    requires forall x: nat :: x < |after| ==>
      after[x] == if In(idx[i], x) then bytes[Len(idx[..i]) + (x - idx[i].start)] else before[x]
    ensures Placed(after, bytes[..Len(idx[..i]) + (idx[i].end - idx[i].start)], idx[..i + 1], base)
  {
    hide Gather, Has;
    var r, offset := idx[i], Len(idx[..i]);
    forall x: nat | x < |after| && Has(idx[..i], x)
      ensures after[x] == before[x]
    {
      BeforeRange(idx, i, x);
    }
    GatherAgrees(before, after, idx[..i]);
    GatherUpTo(after, idx, i);
    forall x | r.start <= x < r.end
      ensures after[x] == bytes[offset + (x - r.start)]
    {
      assert In(r, x);
    }
    SameSlice(after, r.start, r.end, bytes, offset);
    assert bytes[..offset] + bytes[offset..offset + (r.end - r.start)] == bytes[..offset + (r.end - r.start)];
    forall x: nat | x < |after| && !Has(idx[..i + 1], x)
      ensures after[x] == base[x]
    {
      HasNext(idx, i, x);
    }
  }

  lemma BeforeRange(idx: Idx, i: nat, x: nat)
    requires i < |idx| && Has(idx[..i], x)
    ensures x < idx[i].start
  {
  }

  /** Gathering looks at the indexed positions only. */
  lemma {:induction false} GatherAgrees(a: seq<byte>, b: seq<byte>, idx: Idx)
    requires |a| == |b| && InBounds(idx, |a|)
    requires forall x: nat :: x < |a| && Has(idx, x) ==> a[x] == b[x]
    ensures Gather(a, idx) == Gather(b, idx)
    decreases |idx|
  {
    hide Gather, Has;
    if idx == [] {
      GatherNone(a);
      GatherNone(b);
    } else {
      var m := |idx| - 1;
      GatherLast(a, idx);
      GatherLast(b, idx);
      forall x: nat | x < |a|
        ensures Has(idx[..m], x) || In(idx[m], x) ==> a[x] == b[x]
      {
        HasLast(idx, x);
      }
      GatherAgrees(a, b, idx[..m]);
      assert a[idx[m].start..idx[m].end] == b[idx[m].start..idx[m].end] by {
        forall x | idx[m].start <= x < idx[m].end ensures a[x] == b[x] { assert In(idx[m], x); }
      }
    }
  }

  /** And it tells all of them. */
  lemma {:induction false} GatherTells(a: seq<byte>, b: seq<byte>, idx: Idx, x: nat)
    requires |a| == |b| && InBounds(idx, |a|) && Gather(a, idx) == Gather(b, idx) && Has(idx, x)
    ensures x < |a| && a[x] == b[x]
    decreases |idx|
  {
    hide Gather, Has;
    if idx == [] {
      NothingHas();
    } else {
      var m := |idx| - 1;
      GatherLast(a, idx);
      GatherLast(b, idx);
      HasLast(idx, x);
      var n := Len(idx[..m]);
      assert Gather(a, idx)[..n] == Gather(a, idx[..m]) && Gather(b, idx)[..n] == Gather(b, idx[..m]);
      assert Gather(a, idx)[n..] == a[idx[m].start..idx[m].end] && Gather(b, idx)[n..] == b[idx[m].start..idx[m].end];
      if In(idx[m], x) {
        assert a[idx[m].start..idx[m].end][x - idx[m].start] == b[idx[m].start..idx[m].end][x - idx[m].start];
      } else {
        GatherTells(a, b, idx[..m], x);
      }
    }
  }

  lemma PlacedOnce(a: seq<byte>, b: seq<byte>, bytes: seq<byte>, idx: Idx, base: seq<byte>)
    requires Placed(a, bytes, idx, base) && Placed(b, bytes, idx, base)
    ensures a == b
  {
    hide Gather, Has;
    forall x: nat | x < |a|
      ensures a[x] == b[x]
    {
      if Has(idx, x) {
        GatherTells(a, b, idx, x);
      }
    }
  }

  // ---- Transcripts ----

  datatype SubsequenceError = LengthMismatch

  /** Bytes of some positions of one direction. */
  datatype Subsequence = Subsequence(idx: Idx, data: seq<byte>) {
    predicate Valid() {
      |data| == Len(idx)
    }
  }

  method NewSubsequence(idx: Idx, data: seq<byte>) returns (r: Result<Subsequence, SubsequenceError>)
    ensures r.Ok? <==> |data| == Len(idx)
    ensures r.Ok? ==> r.value == Subsequence(idx, data)
  {
    if Len(idx) != |data| { return Err(LengthMismatch); }
    return Ok(Subsequence(idx, data));
  }

  function DataOf(t: Transcript, direction: Direction): seq<byte> {
    match direction
    case Sent => t.sent
    case Received => t.received
  }

  /** The subsequence at an index; its length always fits, so the check inside cannot fail. */
  method GetSubsequence(t: Transcript, direction: Direction, idx: Idx) returns (r: Option<Subsequence>)
    ensures r.Some? <==> InBounds(idx, |DataOf(t, direction)|)
    ensures r.Some? ==> r.value.Valid() && r.value == Subsequence(idx, Gather(DataOf(t, direction), idx))
  {
    var data := match direction case Sent => t.sent case Received => t.received;
    BoundsByEnd(idx, |data|);
    if End(idx) > |data| { return None; }
    var seqn := NewSubsequence(idx, Gather(data, idx));
    return Some(seqn.value);
  }

  lemma BoundedPositions(idx: Idx, n: nat)
    ensures InBounds(idx, n) <==> forall x: nat :: Has(idx, x) ==> x < n
  {
    BoundsByEnd(idx, n);
    if idx != [] {
      var last := idx[|idx| - 1];
      assert In(last, last.end - 1) && Has(idx, last.end - 1);
    }
    forall x: nat | Has(idx, x)
      ensures x < End(idx)
    {
      HasBelowEnd(idx, x);
    }
  }

  datatype View = View(sent: Side, received: Side)

  /** The compressed form: authenticated bytes only, with the total lengths. */
  datatype Compressed = Compressed(
    sentAuthed: seq<byte>, receivedAuthed: seq<byte>, sentIdx: Idx, recvIdx: Idx, sentTotal: nat, recvTotal: nat)
  {
    predicate Valid() {
      && |sentAuthed| == Len(sentIdx) && |receivedAuthed| == Len(recvIdx)
      && InBounds(sentIdx, sentTotal) && InBounds(recvIdx, recvTotal)
    }

    method Check() returns (r: Result<(), SubsequenceError>)
      ensures r.Ok? <==> Valid()
      ensures r.Ok? <==>
        && |sentAuthed| == Len(sentIdx) && |receivedAuthed| == Len(recvIdx)
        && (forall x: nat :: Has(sentIdx, x) ==> x < sentTotal) && (forall x: nat :: Has(recvIdx, x) ==> x < recvTotal)
    {
      BoundedPositions(sentIdx, sentTotal);
      BoundedPositions(recvIdx, recvTotal);
      BoundsByEnd(sentIdx, sentTotal);
      BoundsByEnd(recvIdx, recvTotal);
      if |sentAuthed| != Len(sentIdx) || |receivedAuthed| != Len(recvIdx) { return Err(LengthMismatch); }
      if End(sentIdx) > sentTotal || End(recvIdx) > recvTotal { return Err(LengthMismatch); }
      return Ok(());
    }
  }

  function CompressedOf(v: View): Compressed
    requires InBounds(v.sent.authed, |v.sent.data|) && InBounds(v.received.authed, |v.received.data|)
  {
    Compressed(Gather(v.sent.data, v.sent.authed), Gather(v.received.data, v.received.authed),
               v.sent.authed, v.received.authed, |v.sent.data|, |v.received.data|)
  }

  class PartialTranscript {
    const sent: array<byte>
    const received: array<byte>
    var sentAuthed: Idx
    var receivedAuthed: Idx

    constructor (sentLen: nat, receivedLen: nat)
      ensures Valid() && fresh(sent) && fresh(received)
      ensures V() == View(Side(Zeros(sentLen), []), Side(Zeros(receivedLen), []))
    {
      sent := new byte[sentLen](_ => 0);
      received := new byte[receivedLen](_ => 0);
      sentAuthed, receivedAuthed := [], [];
    }

    ghost predicate Valid()
      reads this
    {
      sent != received && InBounds(sentAuthed, sent.Length) && InBounds(receivedAuthed, received.Length)
    }

    function V(): View
      reads this, sent, received
    {
      View(Side(sent[..], sentAuthed), Side(received[..], receivedAuthed))
    }

    /** Discloses two indices of a transcript. Indices out of bounds are refused (the source panics). */
    static method ToPartial(t: Transcript, sentIdx: Idx, recvIdx: Idx) returns (p: PartialTranscript)
      requires InBounds(sentIdx, |t.sent|) && InBounds(recvIdx, |t.received|)
      ensures fresh(p) && fresh(p.sent) && fresh(p.received) && p.Valid()
      ensures p.V() == View(Disclosed(t.sent, sentIdx), Disclosed(t.received, recvIdx))
      ensures p.sentAuthed == sentIdx && p.receivedAuthed == recvIdx && p.sent.Length == |t.sent| && p.received.Length == |t.received|
      ensures forall x :: 0 <= x < |t.sent| ==> p.sent[x] == if Has(sentIdx, x) then t.sent[x] else 0
      ensures forall x :: 0 <= x < |t.received| ==> p.received[x] == if Has(recvIdx, x) then t.received[x] else 0
    {
      hide Has;
      p := new PartialTranscript(|t.sent|, |t.received|);
      CopyRanges(p.sent, t.sent, sentIdx);
      CopyRanges(p.received, t.received, recvIdx);
      p.sentAuthed, p.receivedAuthed := sentIdx, recvIdx;
    }

    static method Decompress(c: Compressed) returns (p: PartialTranscript)
      requires c.Valid()
      ensures fresh(p) && fresh(p.sent) && fresh(p.received) && p.Valid()
      ensures Placed(p.V().sent.data, c.sentAuthed, c.sentIdx, Zeros(c.sentTotal)) && p.V().sent.authed == c.sentIdx
      ensures Placed(p.V().received.data, c.receivedAuthed, c.recvIdx, Zeros(c.recvTotal)) && p.V().received.authed == c.recvIdx
    {
      hide Gather, Has;
      p := new PartialTranscript(c.sentTotal, c.recvTotal);
      ScatterRanges(p.sent, c.sentAuthed, c.sentIdx);
      ScatterRanges(p.received, c.receivedAuthed, c.recvIdx);
      p.sentAuthed, p.receivedAuthed := c.sentIdx, c.recvIdx;
    }

    method Compress() returns (c: Compressed)
      requires Valid()
      ensures c.Valid() && c == CompressedOf(V())
    {
      c := Compressed(Gather(sent[..], sentAuthed), Gather(received[..], receivedAuthed), sentAuthed, receivedAuthed, sent.Length, received.Length);
    }

    /** The round trip of a valid compressed value. */
    static method Reencode(c: Compressed) returns (d: Compressed)
      requires c.Valid()
      ensures d == c
    {
      hide Gather, Has, Placed, Len;
      var p := Decompress(c);
      d := p.Compress();
      CompressExpanded(c, p.V());
    }

    method IsComplete() returns (complete: bool)
      requires Valid()
      ensures complete <==>
        && (forall x: nat :: x < sent.Length ==> Has(sentAuthed, x))
        && (forall x: nat :: x < received.Length ==> Has(receivedAuthed, x))
    {
      CompleteWhen(sentAuthed, sent.Length);
      CompleteWhen(receivedAuthed, received.Length);
      complete := Len(sentAuthed) == sent.Length && Len(receivedAuthed) == received.Length;
    }

    /** Lengths must agree (the source panics otherwise). */
    method UnionTranscript(other: PartialTranscript)
      requires Valid() && other.Valid() && other.sent != sent && other.received != received
      requires other.received != sent && other.sent != received && other != this
      requires other.sent.Length == sent.Length && other.received.Length == received.Length
      modifies this, sent, received
      ensures Valid() && V() == View(Merged(old(V()).sent, other.V().sent), Merged(old(V()).received, other.V().received))
      ensures forall x :: 0 <= x < sent.Length ==> sent[x] == if Has(other.sentAuthed, x) && !Has(old(sentAuthed), x) then other.sent[x] else old(sent[x])
      ensures forall x :: 0 <= x < received.Length ==>
        received[x] == if Has(other.receivedAuthed, x) && !Has(old(receivedAuthed), x) then other.received[x] else old(received[x])
      ensures forall x: nat :: Has(sentAuthed, x) <==> Has(old(sentAuthed), x) || Has(other.sentAuthed, x)
      ensures forall x: nat :: Has(receivedAuthed, x) <==> Has(old(receivedAuthed), x) || Has(other.receivedAuthed, x)
    {
      hide Has;
      DifferenceBounds(other.sentAuthed, sentAuthed, sent.Length);
      CopyRanges(sent, other.sent[..], Difference(other.sentAuthed, sentAuthed));
      DifferenceBounds(other.receivedAuthed, receivedAuthed, received.Length);
      CopyRanges(received, other.received[..], Difference(other.receivedAuthed, receivedAuthed));
      MergeCopies(old(V()).sent, other.V().sent);
      MergeCopies(old(V()).received, other.V().received);
      UnionBounds(sentAuthed, other.sentAuthed, sent.Length);
      UnionBounds(receivedAuthed, other.receivedAuthed, received.Length);
      UnionsHave(sentAuthed, other.sentAuthed);
      UnionsHave(receivedAuthed, other.receivedAuthed);
      sentAuthed, receivedAuthed := Union(sentAuthed, other.sentAuthed), Union(receivedAuthed, other.receivedAuthed);
      MergedAt(old(V()).sent, other.V().sent);
      MergedAt(old(V()).received, other.V().received);
      assert V().sent.data == Merged(old(V()).sent, other.V().sent).data && V().received.data == Merged(old(V()).received, other.V().received).data;
    }

    /** Overwrites the positions of the subsequence, authenticated or not. */
    method UnionSubsequence(direction: Direction, s: Subsequence)
      requires Valid() && s.Valid() && InBounds(s.idx, if direction.Sent? then sent.Length else received.Length)
      modifies this, sent, received
      ensures Valid()
      ensures direction.Sent? ==> V().received == old(V()).received && V().sent.authed == Union(old(sentAuthed), s.idx)
                                  && Placed(V().sent.data, s.data, s.idx, old(V()).sent.data)
      ensures direction.Received? ==> V().sent == old(V()).sent && V().received.authed == Union(old(receivedAuthed), s.idx)
                                      && Placed(V().received.data, s.data, s.idx, old(V()).received.data)
    {
      hide Gather, Has, Union;
      match direction {
        case Sent =>
          ScatterRanges(sent, s.data, s.idx);
          UnionBounds(sentAuthed, s.idx, sent.Length);
          sentAuthed := Union(sentAuthed, s.idx);
        case Received =>
          ScatterRanges(received, s.data, s.idx);
          UnionBounds(receivedAuthed, s.idx, received.Length);
          receivedAuthed := Union(receivedAuthed, s.idx);
      }
    }

    method SetUnauthed(value: byte)
      requires Valid()
      modifies sent, received
      ensures Valid() && V() == View(Unauthed(old(V()).sent, 0, sent.Length, value), Unauthed(old(V()).received, 0, received.Length, value))
      ensures forall x :: 0 <= x < sent.Length ==> sent[x] == if Has(sentAuthed, x) then old(sent[x]) else value
      ensures forall x :: 0 <= x < received.Length ==> received[x] == if Has(receivedAuthed, x) then old(received[x]) else value
    {
      hide Has;
      UnauthedFills(V().sent, 0, sent.Length, value);
      UnauthedFills(V().received, 0, received.Length, value);
      var sentUnauthed := Difference(Upto(sent.Length), sentAuthed);
      FillRanges(sent, sentUnauthed, value);
      var receivedUnauthed := Difference(Upto(received.Length), receivedAuthed);
      FillRanges(received, receivedUnauthed, value);
    }

    /** A range that leaves the transcript panics when it reaches past the authenticated part. */
    method SetUnauthedRange(value: byte, direction: Direction, range: Range)
      requires Valid() && (range.start < range.end ==> range.end <= if direction.Sent? then sent.Length else received.Length)
      modifies sent, received
      ensures Valid()
      ensures V() == if direction.Sent? then old(V()).(sent := Unauthed(old(V()).sent, range.start, range.end, value))
                     else old(V()).(received := Unauthed(old(V()).received, range.start, range.end, value))
      ensures forall x :: 0 <= x < sent.Length ==>
        sent[x] == if direction.Sent? && range.start <= x < range.end && !Has(sentAuthed, x) then value else old(sent[x])
      ensures forall x :: 0 <= x < received.Length ==>
        received[x] == if direction.Received? && range.start <= x < range.end && !Has(receivedAuthed, x) then value else old(received[x])
    {
      hide Has;
      match direction {
        case Sent =>
          UnauthedFills(V().sent, range.start, range.end, value);
          FillRanges(sent, Difference(Between(range.start, range.end), sentAuthed), value);
        case Received =>
          UnauthedFills(V().received, range.start, range.end, value);
          FillRanges(received, Difference(Between(range.start, range.end), receivedAuthed), value);
      }
    }
  }

  lemma UnionsHave(a: Idx, b: Idx)
    ensures forall x: nat :: Has(Union(a, b), x) <==> Has(a, x) || Has(b, x)
  {
    forall x: nat
      ensures Has(Union(a, b), x) <==> Has(a, x) || Has(b, x)
    {
      UnionHas(a, b, x);
    }
  }

  lemma MergedAt(a: Side, b: Side)
    requires |a.data| == |b.data|
    ensures forall x :: 0 <= x < |a.data| ==> Merged(a, b).data[x] == if Has(b.authed, x) && !Has(a.authed, x) then b.data[x] else a.data[x]
  {
  }

  /** Unauthenticated bytes of a range set to a value. */
  function Unauthed(s: Side, start: nat, end: nat, value: byte): Side {
    Side(seq(|s.data|, x requires 0 <= x < |s.data| => if start <= x < end && !Has(s.authed, x) then value else s.data[x]), s.authed)
  }

  lemma UnauthedFills(s: Side, start: nat, end: nat, value: byte)
    requires start < end ==> end <= |s.data|
    ensures var idx := Difference(Between(start, end), s.authed);
      InBounds(idx, |s.data|) && Filled(s.data, idx, value) == Unauthed(s, start, end, value).data
    ensures start == 0 ==> Upto(end) == Between(start, end)
  {
    hide Difference, Has;
    var idx := Difference(Between(start, end), s.authed);
    DifferenceBounds(Between(start, end), s.authed, |s.data|);
    forall x: nat | x < |s.data|
      ensures Filled(s.data, idx, value)[x] == Unauthed(s, start, end, value).data[x]
    {
      DifferenceHas(Between(start, end), s.authed, x);
      BetweenHas(start, end, x);
    }
  }

  lemma MergeCopies(a: Side, b: Side)
    requires |a.data| == |b.data|
    ensures Overwritten(a.data, b.data, Difference(b.authed, a.authed)) == Merged(a, b).data
  {
    hide Difference, Has;
    forall x: nat | x < |a.data|
      ensures Overwritten(a.data, b.data, Difference(b.authed, a.authed))[x] == Merged(a, b).data[x]
    {
      DifferenceHas(b.authed, a.authed, x);
    }
  }

  lemma CompleteWhen(idx: Idx, n: nat)
    requires InBounds(idx, n)
    ensures Len(idx) == n <==> forall x: nat :: x < n ==> Has(idx, x)
  {
    hide Has, Len;
    LenIsAll(idx, n);
    if forall x: nat :: x < n ==> Has(idx, x) {
      forall x: nat
        ensures Has(idx, x) <==> Has(Between(0, n), x)
      {
        BetweenHas(0, n, x);
        if Has(idx, x) {
          HasBelowEnd(idx, x);
          BoundsByEnd(idx, n);
        }
      }
      Canonical(idx, Between(0, n));
    } else if idx == Upto(n) {
      forall x: nat | x < n
        ensures Has(idx, x)
      {
        BetweenHas(0, n, x);
      }
    }
  }

  // ---- The algebra ----

  /** Merging two disclosures of one transcript is disclosing the union. */
  lemma MergeDisclosed(data: seq<byte>, a: Idx, b: Idx)
    ensures Merged(Disclosed(data, a), Disclosed(data, b)) == Disclosed(data, Union(a, b))
  {
    hide Union, Has;
    forall x: nat | x < |data|
      ensures Merged(Disclosed(data, a), Disclosed(data, b)).data[x] == Disclosed(data, Union(a, b)).data[x]
    {
      UnionHas(a, b, x);
    }
  }

  /** Unions of a disclosure with others, one after the other. */
  function MergedAll(data: seq<byte>, first: Idx, rest: seq<Idx>): Side
    ensures |MergedAll(data, first, rest).data| == |data|
    decreases |rest|
  {
    if rest == [] then Disclosed(data, first)
    else Merged(MergedAll(data, first, rest[..|rest| - 1]), Disclosed(data, rest[|rest| - 1]))
  }

  lemma {:induction false} MergedAllDiscloses(data: seq<byte>, first: Idx, rest: seq<Idx>)
    ensures var s := MergedAll(data, first, rest);
      && s == Disclosed(data, s.authed)
      && forall x: nat :: Has(s.authed, x) <==> Has(first, x) || exists i :: 0 <= i < |rest| && Has(rest[i], x)
    decreases |rest|
  {
    hide Union, Has;
    if rest != [] {
      var m := |rest| - 1;
      MergedAllDiscloses(data, first, rest[..m]);
      var before := MergedAll(data, first, rest[..m]);
      MergeDisclosed(data, before.authed, rest[m]);
      forall x: nat
        ensures Has(MergedAll(data, first, rest).authed, x) <==> Has(first, x) || exists i :: 0 <= i < |rest| && Has(rest[i], x)
      {
        UnionHas(before.authed, rest[m], x);
        if exists i :: 0 <= i < |rest[..m]| && Has(rest[..m][i], x) {
          var i :| 0 <= i < |rest[..m]| && Has(rest[..m][i], x);
          assert Has(rest[i], x);
        }
        if i :| 0 <= i < |rest| && Has(rest[i], x) {
          if i < m {
            assert Has(rest[..m][i], x);
          }
        }
      }
    }
  }

  /** Any two orders in which the same disclosures are merged end in the same value. */
  lemma MergeAnyOrder(data: seq<byte>, a: Idx, as': seq<Idx>, b: Idx, bs: seq<Idx>)
    requires multiset([a] + as') == multiset([b] + bs)
    ensures MergedAll(data, a, as') == MergedAll(data, b, bs)
  {
    hide Has;
    MergedAllDiscloses(data, a, as');
    MergedAllDiscloses(data, b, bs);
    var s, t := MergedAll(data, a, as').authed, MergedAll(data, b, bs).authed;
    forall x: nat
      ensures Has(s, x) <==> Has(t, x)
    {
      SomeHas(a, as', b, bs, x);
      SomeHas(b, bs, a, as', x);
    }
    Canonical(s, t);
  }

  lemma SomeHas(a: Idx, as': seq<Idx>, b: Idx, bs: seq<Idx>, x: nat)
    requires multiset([a] + as') == multiset([b] + bs)
    ensures (Has(a, x) || exists i :: 0 <= i < |as'| && Has(as'[i], x)) ==> (Has(b, x) || exists i :: 0 <= i < |bs| && Has(bs[i], x))
  {
    hide Has;
    var all, other := [a] + as', [b] + bs;
    if Has(a, x) || exists i :: 0 <= i < |as'| && Has(as'[i], x) {
      var j: nat;
      if Has(a, x) {
        j := 0;
      } else {
        var i :| 0 <= i < |as'| && Has(as'[i], x);
        j := i + 1;
      }
      assert all[j] in multiset(all);
      assert all[j] in multiset(other);
      var k :| 0 <= k < |other| && other[k] == all[j];
      if k > 0 {
        assert Has(bs[k - 1], x);
      }
    }
  }

  /** A subsequence of the transcript merges like a disclosure of its index. */
  lemma SubsequenceDiscloses(data: seq<byte>, a: Idx, s: Subsequence, after: seq<byte>)
    requires InBounds(s.idx, |data|) && s.data == Gather(data, s.idx)
    requires Placed(after, s.data, s.idx, Disclosed(data, a).data)
    ensures Side(after, Union(a, s.idx)) == Disclosed(data, Union(a, s.idx))
  {
    hide Gather, Has, Union;
    forall x: nat | x < |data|
      ensures after[x] == Disclosed(data, Union(a, s.idx)).data[x]
    {
      UnionHas(a, s.idx, x);
      if Has(s.idx, x) {
        GatherTells(after, data, s.idx, x);
      }
    }
  }

  // ---- Compression ----

  /** Compressing what a valid compressed value expands to gives it back. */
  lemma CompressExpanded(c: Compressed, v: View)
    requires c.Valid() && v.sent.authed == c.sentIdx && v.received.authed == c.recvIdx
    requires Placed(v.sent.data, c.sentAuthed, c.sentIdx, Zeros(c.sentTotal))
    requires Placed(v.received.data, c.receivedAuthed, c.recvIdx, Zeros(c.recvTotal))
    ensures CompressedOf(v) == c
  {
    hide Gather, Has;
  }

  lemma ExpandMasks(s: Side, data: seq<byte>)
    requires InBounds(s.authed, |s.data|) && Placed(data, Gather(s.data, s.authed), s.authed, Zeros(|s.data|))
    ensures data == Masked(s.data, s.authed)
  {
    hide Gather, Has;
    var masked := Masked(s.data, s.authed);
    GatherAgrees(masked, s.data, s.authed);
    PlacedOnce(data, masked, Gather(s.data, s.authed), s.authed, Zeros(|s.data|));
  }

  /** Expanding what was compressed keeps the authenticated bytes and zeroes the others. */
  lemma ExpandCompressed(v: View, w: View)
    requires InBounds(v.sent.authed, |v.sent.data|) && InBounds(v.received.authed, |v.received.data|)
    requires var c := CompressedOf(v);
      && w.sent.authed == c.sentIdx && w.received.authed == c.recvIdx
      && Placed(w.sent.data, c.sentAuthed, c.sentIdx, Zeros(c.sentTotal))
      && Placed(w.received.data, c.receivedAuthed, c.recvIdx, Zeros(c.recvTotal))
    ensures w == View(Disclosed(v.sent.data, v.sent.authed), Disclosed(v.received.data, v.received.authed))
  {
    hide Gather, Has;
    ExpandMasks(v.sent, w.sent.data);
    ExpandMasks(v.received, w.received.data);
  }
}
