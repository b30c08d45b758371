/** What a verifier learns: from a transcript proof, and from a partial transcript checked against the VM. */
module Disclosure {
  import opened Bytes
  import opened RecordTypes
  import opened Ranges
  import opened TranscriptRefs
  import opened PartialTranscripts
  import opened ProofBuilder

  const MAX_TOTAL_COMMITTED_DATA: nat := 1_000_000_000

  // ---- Verifying the openings of an encoding proof ----

  datatype ProofError = TooMuchData | OutOfBounds | NotIncluded

  datatype Opening = Opening(direction: Direction, s: Subsequence)

  function OpeningLens(openings: seq<Opening>): (r: seq<nat>)
    ensures |r| == |openings|
  {
    seq(|openings|, i requires 0 <= i < |openings| => |openings[i].s.data|)
  }

  predicate OpeningInBounds(o: Opening, sentLen: nat, recvLen: nat) {
    InBounds(o.s.idx, if o.direction.Sent? then sentLen else recvLen)
  }

  /** The opening shows the transcript's own bytes. */
  predicate Honest(o: Opening, t: Transcript) {
    InBounds(o.s.idx, |DataOf(t, o.direction)|) && o.s.data == Gather(DataOf(t, o.direction), o.s.idx)
  }

  predicate SomeOpening(openings: seq<Opening>, d: Direction, x: nat) {
    exists i :: 0 <= i < |openings| && openings[i].direction == d && Has(openings[i].s.idx, x)
  }

  function SideOf(v: View, d: Direction): Side {
    match d
    case Sent => v.sent
    case Received => v.received
  }

  /** The partial transcript is the disclosure of its own index. */
  ghost predicate Discloses(v: View, t: Transcript) {
    v == View(Disclosed(t.sent, v.sent.authed), Disclosed(t.received, v.received.authed))
  }

  ghost predicate Authenticates(v: View, openings: seq<Opening>) {
    forall d: Direction, x: nat :: Has(SideOf(v, d).authed, x) <==> SomeOpening(openings, d, x)
  }

  lemma AuthenticatesNone(v: View)
    requires v.sent.authed == [] && v.received.authed == []
    ensures Authenticates(v, [])
  {
  }

  lemma AuthenticatesStep(v: View, w: View, openings: seq<Opening>, o: Opening)
    requires Authenticates(v, openings)
    requires SideOf(w, o.direction).authed == Union(SideOf(v, o.direction).authed, o.s.idx)
    requires forall d: Direction :: d != o.direction ==> SideOf(w, d) == SideOf(v, d)
    ensures Authenticates(w, openings + [o])
  {
    hide Has, Union;
    var more := openings + [o];
    forall d: Direction, x: nat
      ensures Has(SideOf(w, d).authed, x) <==> SomeOpening(more, d, x)
    {
      UnionHas(SideOf(v, o.direction).authed, o.s.idx, x);
      assert Has(SideOf(v, d).authed, x) <==> SomeOpening(openings, d, x);
      if SomeOpening(openings, d, x) {
        var i :| 0 <= i < |openings| && openings[i].direction == d && Has(openings[i].s.idx, x);
        assert more[i] == openings[i];
      }
      if d == o.direction && Has(o.s.idx, x) {
        assert more[|openings|] == o;
      }
    }
  }

  lemma DisclosesStep(v: View, w: View, o: Opening, t: Transcript)
    requires Discloses(v, t) && Honest(o, t)
    requires SideOf(w, o.direction).authed == Union(SideOf(v, o.direction).authed, o.s.idx)
    requires Placed(SideOf(w, o.direction).data, o.s.data, o.s.idx, SideOf(v, o.direction).data)
    requires forall d: Direction :: d != o.direction ==> SideOf(w, d) == SideOf(v, d)
    ensures Discloses(w, t)
  {
    hide Union, Gather, Masked, Placed, Has;
    SubsequenceDiscloses(DataOf(t, o.direction), SideOf(v, o.direction).authed, o.s, SideOf(w, o.direction).data);
    assert SideOf(v, Sent) == v.sent && SideOf(v, Received) == v.received;
    assert SideOf(w, Sent) == w.sent && SideOf(w, Received) == w.received;
  }

  /** The positions opened are authenticated, and show `t` if all openings are true of it. */
  ghost predicate Shows(v: View, openings: seq<Opening>, t: Transcript) {
    Authenticates(v, openings) && (AllHonest(openings, t) ==> Discloses(v, t))
  }

  predicate AllHonest(openings: seq<Opening>, t: Transcript) {
    forall i :: 0 <= i < |openings| ==> Honest(openings[i], t)
  }

  /** Unions one opening into what the others have authenticated. */
  method MergeOne(transcript: PartialTranscript, o: Opening, ghost openings: seq<Opening>, ghost t: Transcript)
    requires transcript.Valid() && transcript.sent.Length == |t.sent| && transcript.received.Length == |t.received|
    requires o.s.Valid() && OpeningInBounds(o, transcript.sent.Length, transcript.received.Length)
    requires Shows(transcript.V(), openings, t)
    modifies transcript, transcript.sent, transcript.received
    ensures transcript.Valid() && Shows(transcript.V(), openings + [o], t)
  {
    hide Authenticates, Discloses, Placed, Has, Union, Honest, Gather, Masked;
    ghost var v := transcript.V();
    transcript.UnionSubsequence(o.direction, o.s);
    AuthenticatesStep(v, transcript.V(), openings, o);
    if AllHonest(openings + [o], t) {
      assert (openings + [o])[|openings|] == o;
      assert forall i :: 0 <= i < |openings| ==> (openings + [o])[i] == openings[i];
      DisclosesStep(v, transcript.V(), o, t);
    }
  }

  /**
   * Merges the openings into an empty transcript. `included`: whether the Merkle proof places
   * all of them under the committed root. For any transcript `t` that every opening is true of,
   * the result discloses `t` at exactly the opened positions.
   */
  method VerifyOpenings(openings: seq<Opening>, sentLen: nat, recvLen: nat, included: bool, ghost t: Transcript)
    returns (r: Result<PartialTranscript, ProofError>)
    requires forall i :: 0 <= i < |openings| ==> openings[i].s.Valid()
    requires |t.sent| == sentLen && |t.received| == recvLen
    ensures r.Ok? <==>
      && (openings != [] ==> Sum(OpeningLens(openings)) <= MAX_TOTAL_COMMITTED_DATA)
      && (forall i :: 0 <= i < |openings| ==> OpeningInBounds(openings[i], sentLen, recvLen))
      && included
    ensures r.Ok? ==> fresh(r.value) && fresh(r.value.sent) && fresh(r.value.received)
                      && r.value.sent.Length == sentLen && r.value.received.Length == recvLen
    ensures r.Ok? ==> r.value.Valid() && Shows(r.value.V(), openings, t)
  {
    hide Shows, OpeningInBounds, Placed, Has, Union, SumTo, OpeningLens, Gather, Masked;
    var transcript := new PartialTranscript(sentLen, recvLen);
    var totalOpened := 0;
    ShowsNothing(transcript.V(), t);
    LensOf(openings, 0);
    for i := 0 to |openings|
      invariant fresh(transcript) && fresh(transcript.sent) && fresh(transcript.received) && transcript.Valid()
      invariant transcript.sent.Length == sentLen && transcript.received.Length == recvLen
      invariant totalOpened == SumTo(OpeningLens(openings), i) && (i > 0 ==> totalOpened <= MAX_TOTAL_COMMITTED_DATA)
      invariant forall j :: 0 <= j < i ==> OpeningInBounds(openings[j], sentLen, recvLen)
      invariant Shows(transcript.V(), openings[..i], t)
    {
      var o := openings[i];
      LensOf(openings, i);
      totalOpened := totalOpened + |o.s.data|;
      if totalOpened > MAX_TOTAL_COMMITTED_DATA {
        SumToMonotone(OpeningLens(openings), i + 1, |openings|);
        return Err(TooMuchData);
      }
      var transcriptLen := match o.direction case Sent => sentLen case Received => recvLen;
      InBoundsWhen(o, sentLen, recvLen);
      if End(o.s.idx) > transcriptLen { return Err(ProofError.OutOfBounds); }
      MergeOne(transcript, o, openings[..i], t);
      assert openings[..i + 1] == openings[..i] + [o];
    }
    assert openings[..|openings|] == openings;
    if !included { return Err(NotIncluded); }
    return Ok(transcript);
  }

  lemma InBoundsWhen(o: Opening, sentLen: nat, recvLen: nat)
    ensures OpeningInBounds(o, sentLen, recvLen) <==> End(o.s.idx) <= match o.direction case Sent => sentLen case Received => recvLen
  {
    BoundsByEnd(o.s.idx, if o.direction.Sent? then sentLen else recvLen);
  }

  lemma ShowsNothing(v: View, t: Transcript)
    requires v == View(Side(Zeros(|t.sent|), []), Side(Zeros(|t.received|), []))
    ensures Shows(v, [], t)
  {
    AuthenticatesNone(v);
    DisclosesNone(v, t);
  }

  lemma LensOf(openings: seq<Opening>, i: nat)
    ensures SumTo(OpeningLens(openings), 0) == 0
    ensures i < |openings| ==> SumTo(OpeningLens(openings), i + 1) == SumTo(OpeningLens(openings), i) + |openings[i].s.data|
  {
  }

  lemma DisclosesNone(v: View, t: Transcript)
    requires v == View(Side(Zeros(|t.sent|), []), Side(Zeros(|t.received|), []))
    ensures Discloses(v, t)
  {
  }

  /** The openings a proof makes of a transcript. */
  function OpeningsOf(leaves: seq<(Direction, Idx)>, t: Transcript): (r: seq<Opening>)
    requires forall i :: 0 <= i < |leaves| ==> InBounds(leaves[i].1, |DataOf(t, leaves[i].0)|)
    ensures |r| == |leaves|
    ensures forall i :: 0 <= i < |leaves| ==> Honest(r[i], t) && r[i].direction == leaves[i].0 && r[i].s.idx == leaves[i].1
  {
    seq(|leaves|, i requires 0 <= i < |leaves| => Opening(leaves[i].0, Subsequence(leaves[i].1, Gather(DataOf(t, leaves[i].0), leaves[i].1))))
  }

  /** Every opening the builder picks can be made: it is a leaf, and within the transcript. */
  lemma OpeningsExist(tree: EncodingTree, t: Transcript, query: Pair, leaves: seq<(Direction, Idx)>)
    requires tree.Valid(t) && OpensExactly(tree, query, leaves)
    ensures forall i :: 0 <= i < |leaves| ==> leaves[i] in tree.leaves && InBounds(leaves[i].1, |DataOf(t, leaves[i].0)|)
  {
    forall i | 0 <= i < |leaves|
      ensures InBounds(leaves[i].1, |DataOf(t, leaves[i].0)|)
    {
      var j :| 0 <= j < |tree.leaves| && tree.leaves[j] == leaves[i];
    }
  }

  /** Exact disclosure, end to end: a proof built for a query shows the verifier the transcript at the query, and nothing else. */
  lemma ExactDisclosure(tree: EncodingTree, t: Transcript, query: Pair, leaves: seq<(Direction, Idx)>, v: View)
    requires tree.Valid(t) && OpensExactly(tree, query, leaves)
    requires forall i :: 0 <= i < |leaves| ==> InBounds(leaves[i].1, |DataOf(t, leaves[i].0)|)
    requires Authenticates(v, OpeningsOf(leaves, t)) && Discloses(v, t)
    ensures v == View(Disclosed(t.sent, query.sent), Disclosed(t.received, query.recv))
  {
    hide Has, Masked, Gather;
    var openings := OpeningsOf(leaves, t);
    forall d: Direction, x: nat
      ensures Has(SideOf(v, d).authed, x) <==> Has(query.At(d), x)
    {
      assert Has(SideOf(v, d).authed, x) <==> SomeOpening(openings, d, x);
      SameOpenings(leaves, openings, d, x);
    }
    forall x: nat
      ensures Has(v.sent.authed, x) <==> Has(query.sent, x)
      ensures Has(v.received.authed, x) <==> Has(query.recv, x)
    {
      assert Has(SideOf(v, Sent).authed, x) <==> Has(query.At(Sent), x);
      assert Has(SideOf(v, Received).authed, x) <==> Has(query.At(Received), x);
    }
    Canonical(v.sent.authed, query.sent);
    Canonical(v.received.authed, query.recv);
  }

  lemma SameOpenings(leaves: seq<(Direction, Idx)>, openings: seq<Opening>, d: Direction, x: nat)
    requires |openings| == |leaves|
    requires forall i :: 0 <= i < |leaves| ==> openings[i].direction == leaves[i].0 && openings[i].s.idx == leaves[i].1
    ensures SomeOpening(openings, d, x) <==> SomeLeaf(leaves, d, x)
  {
    hide Has;
    if SomeOpening(openings, d, x) {
      var i :| 0 <= i < |openings| && openings[i].direction == d && Has(openings[i].s.idx, x);
      assert Has(leaves[i].1, x);
    }
    if SomeLeaf(leaves, d, x) {
      var i :| 0 <= i < |leaves| && leaves[i].0 == d && Has(leaves[i].1, x);
      assert Has(openings[i].s.idx, x);
    }
  }

  // ---- Receiving a purported transcript ----

  const U32: nat := 0x1_0000_0000

  datatype ReceiveError = WrongLength | Incorrect

  /** The bytes the VM decodes at some addresses. */
  function Read(memory: nat -> byte, addrs: seq<nat>): (r: seq<byte>)
    ensures |r| == |addrs|
  {
    seq(|addrs|, i requires 0 <= i < |addrs| => memory(addrs[i]))
  }

  lemma ReadGathers(memory: nat -> byte, addrs: seq<nat>, idx: Idx)
    requires InBounds(idx, |addrs|)
    ensures Read(memory, Gather(addrs, idx)) == Gather(Read(memory, addrs), idx)
  {
    hide Gather;
    forall i | 0 <= i < Len(idx)
      ensures Read(memory, Gather(addrs, idx))[i] == Gather(Read(memory, addrs), idx)[i]
    {
      GatherPicks(addrs, idx, i);
      GatherPicks(Read(memory, addrs), idx, i);
    }
  }

  /** The decoded slices, one after the other. */
  method DecodeAll(memory: nat -> byte, slices: seq<Slice>) returns (data: seq<byte>)
    ensures data == Read(memory, Addrs(slices))
  {
    data := [];
    for i := 0 to |slices|
      invariant data == Read(memory, AddrsTo(slices, i))
    {
      AddrsStep(slices, i);
      data := data + seq(slices[i].len, j requires 0 <= j < slices[i].len => memory(slices[i].ptr + j));
    }
  }

  /** Compares two byte streams up to the end of the shorter one. */
  method AnyDiffers(a: seq<byte>, b: seq<byte>) returns (differs: bool)
    ensures |a| == |b| ==> (differs <==> a != b)
  {
    var n := if |a| < |b| then |a| else |b|;
    for i := 0 to n
      invariant a[..i] == b[..i]
    {
      if a[i] != b[i] { return true; }
    }
    return false;
  }

  /** The transcript length the verifier computes, truncated to 32 bits. */
  function LengthOf(refs: seq<Slice>): nat {
    |Addrs(refs)| % U32
  }

  /** Position `x` of the side is what the VM holds at the `x`-th address. */
  predicate TrueAt(memory: nat -> byte, addrs: seq<nat>, data: seq<byte>, x: nat) {
    x < |data| && x < |addrs| && data[x] == memory(addrs[x])
  }

  ghost predicate Truthful(memory: nat -> byte, addrs: seq<nat>, side: Side) {
    forall x: nat :: Has(side.authed, x) ==> TrueAt(memory, addrs, side.data, x)
  }

  /** The right lengths, and every authenticated byte of both directions is the VM's at that position. */
  ghost predicate Acceptable(memory: nat -> byte, refs: TranscriptRefs, partial: View) {
    && |partial.sent.data| == LengthOf(refs.sent) && |partial.received.data| == LengthOf(refs.recv)
    && Truthful(memory, Addrs(refs.sent), partial.sent)
    && Truthful(memory, Addrs(refs.recv), partial.received)
  }

  /**
   * Accepts a purported partial transcript exactly when it has the right lengths and every
   * authenticated byte is the VM's byte at that position. Neither lookup can fail and the two
   * streams compared have equal length, so nothing escapes the comparison.
   */
  method Receive(memory: nat -> byte, refs: TranscriptRefs, partial: View) returns (r: Result<View, ReceiveError>)
    requires InBounds(partial.sent.authed, |partial.sent.data|) && InBounds(partial.received.authed, |partial.received.data|)
    ensures r.Ok? <==>
      && |partial.sent.data| == |Addrs(refs.sent)| % 0x1_0000_0000 && |partial.received.data| == |Addrs(refs.recv)| % 0x1_0000_0000
      && (forall x: nat :: Has(partial.sent.authed, x) ==>
            x < |partial.sent.data| && x < |Addrs(refs.sent)| && partial.sent.data[x] == memory(Addrs(refs.sent)[x]))
      && (forall x: nat :: Has(partial.received.authed, x) ==>
            x < |partial.received.data| && x < |Addrs(refs.recv)| && partial.received.data[x] == memory(Addrs(refs.recv)[x]))
    ensures r.Ok? <==> Acceptable(memory, refs, partial)
    ensures r.Ok? ==> r.value == partial
  {
    hide Gather, Has, AddrsTo, Read, Truthful;
    AcceptableWhen(memory, refs, partial);
    if |partial.sent.data| != LengthOf(refs.sent) || |partial.received.data| != LengthOf(refs.recv) {
      return Err(WrongLength);
    }
    LookupInBounds(partial.sent, refs.sent);
    LookupInBounds(partial.received, refs.recv);
    var sentRefs := refs.Get(Sent, partial.sent.authed);
    var recvRefs := refs.Get(Received, partial.received.authed);
    // Both lookups are unwrapped.
    var sentData := DecodeAll(memory, sentRefs.value);
    var recvData := DecodeAll(memory, recvRefs.value);
    var claimedSent := Gather(partial.sent.data, partial.sent.authed);
    var claimedRecv := Gather(partial.received.data, partial.received.authed);
    ReadGathers(memory, Addrs(refs.sent), partial.sent.authed);
    ReadGathers(memory, Addrs(refs.recv), partial.received.authed);
    SameBytes(memory, refs.sent, partial.sent);
    SameBytes(memory, refs.recv, partial.received);
    var differs := AnyDiffers(sentData + recvData, claimedSent + claimedRecv);
    Halves(sentData, recvData, claimedSent, claimedRecv);
    if differs { return Err(Incorrect); }
    return Ok(partial);
  }

  /** Position by position: nothing of either direction is left out of the comparison. */
  lemma AcceptableWhen(memory: nat -> byte, refs: TranscriptRefs, partial: View)
    ensures Acceptable(memory, refs, partial) <==>
      && |partial.sent.data| == |Addrs(refs.sent)| % 0x1_0000_0000 && |partial.received.data| == |Addrs(refs.recv)| % 0x1_0000_0000
      && (forall x: nat :: Has(partial.sent.authed, x) ==>
            x < |partial.sent.data| && x < |Addrs(refs.sent)| && partial.sent.data[x] == memory(Addrs(refs.sent)[x]))
      && (forall x: nat :: Has(partial.received.authed, x) ==>
            x < |partial.received.data| && x < |Addrs(refs.recv)| && partial.received.data[x] == memory(Addrs(refs.recv)[x]))
  {
    hide Has, AddrsTo;
  }

  /** One authenticated byte of either direction that is not the VM's is enough to be refused. */
  lemma DifferentByteRefused(memory: nat -> byte, refs: TranscriptRefs, partial: View, direction: Direction, x: nat)
    requires Has(SideOf(partial, direction).authed, x) && x < |SideOf(partial, direction).data| && x < |Addrs(refs.Refs(direction))|
    requires SideOf(partial, direction).data[x] != memory(Addrs(refs.Refs(direction))[x])
    ensures !Acceptable(memory, refs, partial)
  {
    hide Has, AddrsTo;
    AcceptableWhen(memory, refs, partial);
  }

  lemma Halves(a: seq<byte>, b: seq<byte>, c: seq<byte>, d: seq<byte>)
    requires |a| == |c|
    ensures a + b == c + d <==> a == c && b == d
  {
    if a + b == c + d {
      assert a == (a + b)[..|a|] && b == (a + b)[|a|..];
      assert c == (c + d)[..|c|] && d == (c + d)[|c|..];
    }
  }

  lemma LookupInBounds(side: Side, refs: seq<Slice>)
    requires InBounds(side.authed, |side.data|) && |side.data| == LengthOf(refs)
    ensures InBounds(side.authed, |Addrs(refs)|) && End(side.authed) <= |Addrs(refs)|
  {
    hide AddrsTo;
    assert |Addrs(refs)| % U32 <= |Addrs(refs)|;
    BoundsByEnd(side.authed, |side.data|);
    BoundsByEnd(side.authed, |Addrs(refs)|);
  }

  lemma SameBytes(memory: nat -> byte, refs: seq<Slice>, side: Side)
    requires InBounds(side.authed, |side.data|) && InBounds(side.authed, |Addrs(refs)|)
    ensures Gather(Read(memory, Addrs(refs)), side.authed) == Gather(side.data, side.authed)
            <==> Truthful(memory, Addrs(refs), side)
  {
    hide Gather, Has, AddrsTo;
    var actual, n := Read(memory, Addrs(refs)), End(side.authed);
    BoundsByEnd(side.authed, |side.data|);
    BoundsByEnd(side.authed, |Addrs(refs)|);
    BoundsByEnd(side.authed, n);
    GatherCut(actual, side.authed, n);
    GatherCut(side.data, side.authed, n);
    if Gather(actual, side.authed) == Gather(side.data, side.authed) {
      forall x: nat | Has(side.authed, x)
        ensures TrueAt(memory, Addrs(refs), side.data, x)
      {
        GatherTells(actual[..n], side.data[..n], side.authed, x);
      }
    }
    if Truthful(memory, Addrs(refs), side) {
      GatherAgrees(actual[..n], side.data[..n], side.authed);
    }
  }

  lemma {:induction false} GatherCut(data: seq<byte>, idx: Idx, n: nat)
    requires InBounds(idx, n) && n <= |data|
    ensures Gather(data[..n], idx) == Gather(data, idx)
    decreases |idx|
  {
    hide Gather;
    if idx == [] {
      GatherNone(data);
      GatherNone(data[..n]);
    } else {
      var m := |idx| - 1;
      GatherLast(data, idx);
      GatherLast(data[..n], idx);
      GatherCut(data, idx[..m], n);
      assert data[..n][idx[m].start..idx[m].end] == data[idx[m].start..idx[m].end];
    }
  }

  /** A disclosure of the transcript whose plaintexts the VM holds is truthful, and has the right length. */
  lemma HonestDisclosure(memory: nat -> byte, records: seq<Record>, idx: Idx)
    requires forall i :: 0 <= i < |records| ==> HeldAt(memory, records[i])
    requires AllPlain(records) && AllReferenced(records) && InBounds(idx, |Plaintexts(records)|)
    ensures var side := Disclosed(Plaintexts(records), idx);
      && Truthful(memory, Addrs(RefsOf(records)), side)
      && (|Plaintexts(records)| < U32 ==> |side.data| == LengthOf(RefsOf(records)))
  {
    hide Plaintexts, AddrsTo, Has;
    RefsHoldTranscript(memory, records);
    forall x: nat | Has(idx, x)
      ensures TrueAt(memory, Addrs(RefsOf(records)), Disclosed(Plaintexts(records), idx).data, x)
    {
      HasBelowEnd(idx, x);
      BoundsByEnd(idx, |Plaintexts(records)|);
    }
  }
}
