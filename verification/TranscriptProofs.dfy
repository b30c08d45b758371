/** Verifying a whole transcript proof: the encoding openings first, then the hash openings merged into them. */
module TranscriptProofs {
  import opened Bytes
  import opened Ranges
  import opened TranscriptRefs
  import opened PartialTranscripts
  import opened Disclosure

  /** A hash commitment an attestation carries. */
  datatype PlaintextHash = PlaintextHash(direction: Direction, idx: Idx, alg: nat, value: seq<byte>)

  /** Data and blinder that open the commitment with the given field id. */
  datatype HashProof = HashProof(data: seq<byte>, blinder: seq<byte>, commitment: nat)

  type Hasher = (seq<byte>, seq<byte>) -> seq<byte>

  /** The openings of an encoding proof, and whether its Merkle proof includes all of them. */
  datatype EncodingProof = EncodingProof(openings: seq<Opening>, included: bool)

  datatype VerifyError = MissingCommitment | TooMuchData | UnknownHash | HashMismatch | WrongLength | OutOfBounds | Encoding(error: ProofError)

  predicate Opens(p: HashProof, c: PlaintextHash, hashers: map<nat, Hasher>) {
    c.alg in hashers && hashers[c.alg](p.data, p.blinder) == c.value && |p.data| == Len(c.idx)
  }

  function OpeningOf(p: HashProof, c: PlaintextHash): Opening {
    Opening(c.direction, Subsequence(c.idx, p.data))
  }

  method VerifyHash(p: HashProof, c: PlaintextHash, hashers: map<nat, Hasher>) returns (r: Result<Opening, VerifyError>)
    ensures r.Ok? <==> Opens(p, c, hashers)
    ensures r.Ok? ==> r.value == OpeningOf(p, c) && r.value.s.Valid()
  {
    if c.alg !in hashers { return Err(UnknownHash); }
    var alg := hashers[c.alg];
    if c.value != alg(p.data, p.blinder) { return Err(HashMismatch); }
    var s := NewSubsequence(c.idx, p.data);
    match s
    case Err(_) => return Err(VerifyError.WrongLength);
    case Ok(value) => return Ok(Opening(c.direction, value));
  }

  // ---- The whole proof ----

  /** What the bound on opened data counts: the committed lengths. */
  function HashLens(proofs: seq<HashProof>, commitments: map<nat, PlaintextHash>): (r: seq<nat>)
    ensures |r| == |proofs|
  {
    seq(|proofs|, i requires 0 <= i < |proofs| =>
      if proofs[i].commitment in commitments then Len(commitments[proofs[i].commitment].idx) else 0)
  }

  predicate AllAttested(proofs: seq<HashProof>, commitments: map<nat, PlaintextHash>) {
    forall i :: 0 <= i < |proofs| ==> proofs[i].commitment in commitments
  }

  function HashOpenings(proofs: seq<HashProof>, commitments: map<nat, PlaintextHash>): (r: seq<Opening>)
    requires AllAttested(proofs, commitments)
    ensures |r| == |proofs|
  {
    seq(|proofs|, i requires 0 <= i < |proofs| => OpeningOf(proofs[i], commitments[proofs[i].commitment]))
  }

  predicate HashVerifies(p: HashProof, commitments: map<nat, PlaintextHash>, hashers: map<nat, Hasher>, sentLen: nat, recvLen: nat) {
    && p.commitment in commitments
    && Opens(p, commitments[p.commitment], hashers)
    && OpeningInBounds(OpeningOf(p, commitments[p.commitment]), sentLen, recvLen)
  }

  lemma HashVerifiesWhen(p: HashProof, commitments: map<nat, PlaintextHash>, hashers: map<nat, Hasher>, sentLen: nat, recvLen: nat)
    ensures HashVerifies(p, commitments, hashers, sentLen, recvLen) <==>
      && p.commitment in commitments && Opens(p, commitments[p.commitment], hashers)
      && OpeningInBounds(OpeningOf(p, commitments[p.commitment]), sentLen, recvLen)
  {
  }

  /** The bound on committed lengths bounds the data actually opened. */
  lemma {:induction false} OpenedWithin(proofs: seq<HashProof>, commitments: map<nat, PlaintextHash>, hashers: map<nat, Hasher>,
                                        sentLen: nat, recvLen: nat, n: nat)
    requires n <= |proofs| && forall i :: 0 <= i < |proofs| ==> HashVerifies(proofs[i], commitments, hashers, sentLen, recvLen)
    ensures AllAttested(proofs, commitments)
    ensures SumTo(OpeningLens(HashOpenings(proofs, commitments)), n) == SumTo(HashLens(proofs, commitments), n)
    decreases n
  {
    if n > 0 {
      OpenedWithin(proofs, commitments, hashers, sentLen, recvLen, n - 1);
      assert HashVerifies(proofs[n - 1], commitments, hashers, sentLen, recvLen);
    }
  }

  predicate EncodingVerifies(e: EncodingProof, sentLen: nat, recvLen: nat) {
    && (e.openings != [] ==> Sum(OpeningLens(e.openings)) <= MAX_TOTAL_COMMITTED_DATA)
    && (forall i :: 0 <= i < |e.openings| ==> OpeningInBounds(e.openings[i], sentLen, recvLen))
    && e.included
  }

  function EncodingOpenings(e: Option<EncodingProof>): seq<Opening> {
    if e.None? then [] else e.value.openings
  }

  /** A disclosure merged into an empty transcript is that disclosure. */
  lemma MergeIntoEmpty(empty: View, v: View, w: View, openings: seq<Opening>, t: Transcript)
    requires empty == View(Side(Zeros(|t.sent|), []), Side(Zeros(|t.received|), []))
    requires |v.sent.data| == |t.sent| && |v.received.data| == |t.received|
    requires w == View(Merged(empty.sent, v.sent), Merged(empty.received, v.received))
    ensures Authenticates(v, openings) ==> Authenticates(w, openings)
    ensures Discloses(v, t) ==> Discloses(w, t)
  {
    forall d: Direction, x: nat
      ensures Has(SideOf(w, d).authed, x) <==> Has(SideOf(v, d).authed, x)
    {
      UnionHas([], v.sent.authed, x);
      UnionHas([], v.received.authed, x);
      assert !Has([], x);
    }
    if Discloses(v, t) {
      DisclosesNone(empty, t);
      MergeDisclosed(t.sent, [], v.sent.authed);
      MergeDisclosed(t.received, [], v.received.authed);
    }
  }

  lemma HashLensUpTo(proofs: seq<HashProof>, commitments: map<nat, PlaintextHash>, i: nat)
    ensures SumTo(HashLens(proofs, commitments), 0) == 0
    ensures i < |proofs| && proofs[i].commitment in commitments ==>
      SumTo(HashLens(proofs, commitments), i + 1) == SumTo(HashLens(proofs, commitments), i) + Len(commitments[proofs[i].commitment].idx)
  {
  }

  lemma HashOpeningsNext(proofs: seq<HashProof>, commitments: map<nat, PlaintextHash>, i: nat)
    requires i < |proofs| && AllAttested(proofs[..i], commitments) && proofs[i].commitment in commitments
    ensures AllAttested(proofs[..i + 1], commitments)
    ensures HashOpenings(proofs[..i + 1], commitments) == HashOpenings(proofs[..i], commitments) + [OpeningOf(proofs[i], commitments[proofs[i].commitment])]
  {
    assert proofs[..i + 1] == proofs[..i] + [proofs[i]];
  }

  lemma NoHashOpenings(openings: seq<Opening>, commitments: map<nat, PlaintextHash>)
    ensures AllAttested([], commitments) && openings + HashOpenings([], commitments) == openings
  {
  }

  /** The loop over the hash proofs: each one that opens its commitment is merged in. */
  method MergeHashes(transcript: PartialTranscript, proofs: seq<HashProof>, commitments: map<nat, PlaintextHash>,
                     hashers: map<nat, Hasher>, ghost first: seq<Opening>, ghost t: Transcript)
    returns (r: Result<(), VerifyError>)
    requires transcript.Valid() && transcript.sent.Length == |t.sent| && transcript.received.Length == |t.received|
    requires Shows(transcript.V(), first, t)
    modifies transcript, transcript.sent, transcript.received
    ensures r.Ok? <==>
      && (forall i :: 0 <= i < |proofs| ==> HashVerifies(proofs[i], commitments, hashers, transcript.sent.Length, transcript.received.Length))
      && (proofs != [] ==> Sum(HashLens(proofs, commitments)) <= MAX_TOTAL_COMMITTED_DATA)
    ensures r.Ok? ==>
      && transcript.Valid() && AllAttested(proofs, commitments)
      && Shows(transcript.V(), first + HashOpenings(proofs, commitments), t)
  {
    hide Shows, HashVerifies, Authenticates, Discloses, Placed, Has, Union, Honest, SumTo, HashLens, OpeningLens, Gather, Masked, HashOpenings;
    var totalOpened := 0;
    HashLensUpTo(proofs, commitments, 0);
    NoHashOpenings(first, commitments);
    assert proofs[..0] == [];
    for i := 0 to |proofs|
      invariant transcript.Valid()
      invariant totalOpened == SumTo(HashLens(proofs, commitments), i) && (i > 0 ==> totalOpened <= MAX_TOTAL_COMMITTED_DATA)
      invariant forall j :: 0 <= j < i ==> HashVerifies(proofs[j], commitments, hashers, transcript.sent.Length, transcript.received.Length)
      invariant AllAttested(proofs[..i], commitments)
      invariant Shows(transcript.V(), first + HashOpenings(proofs[..i], commitments), t)
    {
      HashVerifiesWhen(proofs[i], commitments, hashers, transcript.sent.Length, transcript.received.Length);
      if proofs[i].commitment !in commitments { return Err(MissingCommitment); }
      var commitment := commitments[proofs[i].commitment];
      HashLensUpTo(proofs, commitments, i);
      totalOpened := totalOpened + Len(commitment.idx);
      if totalOpened > MAX_TOTAL_COMMITTED_DATA {
        SumToMonotone(HashLens(proofs, commitments), i + 1, |proofs|);
        return Err(VerifyError.TooMuchData);
      }
      var shown := VerifyHash(proofs[i], commitment, hashers);
      match shown
      case Err(error) => return Err(error);
      case Ok(o) =>
        // A commitment that reaches past the transcript makes the source panic here.
        if !OpeningInBounds(o, transcript.sent.Length, transcript.received.Length) { return Err(VerifyError.OutOfBounds); }
        MergeOne(transcript, o, first + HashOpenings(proofs[..i], commitments), t);
        HashOpeningsNext(proofs, commitments, i);
        assert first + HashOpenings(proofs[..i + 1], commitments) == first + HashOpenings(proofs[..i], commitments) + [o];
    }
    assert proofs[..|proofs|] == proofs;
    return Ok(());
  }

  /**
   * Accepts a proof exactly when its encoding openings verify and every hash proof opens a
   * commitment of the attestation inside the transcript. The result authenticates the opened
   * positions and no others; if every opening is true of `t`, its bytes there are those of `t`.
   */
  method VerifyWithProvider(encoding: Option<EncodingProof>, encodingAttested: bool, proofs: seq<HashProof>,
                            commitments: map<nat, PlaintextHash>, hashers: map<nat, Hasher>,
                            sentLen: nat, recvLen: nat, ghost t: Transcript)
    returns (r: Result<PartialTranscript, VerifyError>)
    requires encoding.Some? ==> forall i :: 0 <= i < |encoding.value.openings| ==> encoding.value.openings[i].s.Valid()
    requires |t.sent| == sentLen && |t.received| == recvLen
    ensures r.Ok? <==>
      && (encoding.Some? ==> encodingAttested && EncodingVerifies(encoding.value, sentLen, recvLen))
      && (forall i :: 0 <= i < |proofs| ==> HashVerifies(proofs[i], commitments, hashers, sentLen, recvLen))
      && (proofs != [] ==> Sum(HashLens(proofs, commitments)) <= MAX_TOTAL_COMMITTED_DATA)
    ensures r.Ok? ==>
      && fresh(r.value) && r.value.Valid() && AllAttested(proofs, commitments)
      && Authenticates(r.value.V(), EncodingOpenings(encoding) + HashOpenings(proofs, commitments))
      && (AllHonest(EncodingOpenings(encoding) + HashOpenings(proofs, commitments), t) ==> Discloses(r.value.V(), t))
  {
    hide Authenticates, Discloses, Placed, Has, Union, Honest, SumTo, HashLens, OpeningLens, Gather, Masked, HashOpenings, Merged;
    ghost var first := EncodingOpenings(encoding);
    var transcript := new PartialTranscript(sentLen, recvLen);
    ghost var empty := transcript.V();
    AuthenticatesNone(empty);
    DisclosesNone(empty, t);
    if encoding.Some? {
      if !encodingAttested { return Err(MissingCommitment); }
      var verified := VerifyOpenings(encoding.value.openings, sentLen, recvLen, encoding.value.included, t);
      match verified
      case Err(error) => return Err(Encoding(error));
      case Ok(shown) =>
        transcript.UnionTranscript(shown);
        MergeIntoEmpty(empty, shown.V(), transcript.V(), first, t);
    }
    var merged := MergeHashes(transcript, proofs, commitments, hashers, first, t);
    match merged
    case Err(error) => return Err(error);
    case Ok(_) => return Ok(transcript);
  }

  // ---- What verified proofs say ----

  /** No two pairs of data and blinder have the same hash. */
  ghost predicate Binding(h: Hasher) {
    forall a: seq<byte>, ar: seq<byte>, b: seq<byte>, br: seq<byte> :: h(a, ar) == h(b, br) ==> a == b
  }

  /** The commitment was made to the transcript's own bytes. */
  ghost predicate CommitsTo(c: PlaintextHash, h: Hasher, t: Transcript) {
    InBounds(c.idx, |DataOf(t, c.direction)|)
    && exists blinder: seq<byte> :: h(Gather(DataOf(t, c.direction), c.idx), blinder) == c.value
  }

  /**
   * When the hash is binding and the attested commitments were made to the transcript, every hash
   * proof that verifies opens the transcript's own bytes.
   */
  lemma HashProofsHonest(proofs: seq<HashProof>, commitments: map<nat, PlaintextHash>, hashers: map<nat, Hasher>, t: Transcript)
    requires forall i :: 0 <= i < |proofs| ==> HashVerifies(proofs[i], commitments, hashers, |t.sent|, |t.received|)
    requires forall id :: id in commitments && commitments[id].alg in hashers ==>
      Binding(hashers[commitments[id].alg]) && CommitsTo(commitments[id], hashers[commitments[id].alg], t)
    ensures AllAttested(proofs, commitments) && AllHonest(HashOpenings(proofs, commitments), t)
  {
    forall i | 0 <= i < |proofs|
      ensures proofs[i].commitment in commitments && Honest(OpeningOf(proofs[i], commitments[proofs[i].commitment]), t)
    {
      var p := proofs[i];
      assert HashVerifies(p, commitments, hashers, |t.sent|, |t.received|);
      var c := commitments[p.commitment];
      var h := hashers[c.alg];
      assert Binding(h) && CommitsTo(c, h, t);
      var blinder: seq<byte> :| h(Gather(DataOf(t, c.direction), c.idx), blinder) == c.value;
      assert h(p.data, p.blinder) == h(Gather(DataOf(t, c.direction), c.idx), blinder);
    }
  }
}
