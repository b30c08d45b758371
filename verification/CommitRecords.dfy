/** Plaintext commitment: every record is re-encrypted in the proof VM and compared with what was on the wire. */
module CommitRecords {
  import opened Bytes
  import opened RecordTypes
  import opened ZkVm
  import opened CtrKeystream
  import opened ZkAes
  import Gctr

  datatype ProofError = PlaintextRefAlreadySet | Aes(error: ZkAesError) | MissingPlaintext | NotDecoded | InvalidCiphertext | Failed(vm: VmError)

  /** Ciphertext references, each with the ciphertext it must decode to. */
  datatype RecordProof = RecordProof(ciphertexts: seq<(Slice, seq<byte>)>) {
    method Verify(vm: Vm) returns (r: Result<(), ProofError>)
      ensures r.Ok? <==> Verifies(vm.k, vm.S())
    {
      for i := 0 to |ciphertexts|
        invariant forall j :: 0 <= j < i ==> Matches(vm.k, vm.S(), j)
      {
        var decoded := Decoded(vm.k, vm.S(), ciphertexts[i].0.ptr, ciphertexts[i].0.len);
        if decoded.None? {
          assert !Matches(vm.k, vm.S(), i);
          return Err(NotDecoded);
        }
        if decoded.value != ciphertexts[i].1 {
          assert !Matches(vm.k, vm.S(), i);
          return Err(InvalidCiphertext);
        }
      }
      return Ok(());
    }

    predicate Matches(k: Gctr.Key, s: VmState, i: nat)
      requires i < |ciphertexts|
    {
      Decoded(k, s, ciphertexts[i].0.ptr, ciphertexts[i].0.len) == Some(ciphertexts[i].1)
    }

    predicate Verifies(k: Gctr.Key, s: VmState) {
      forall i :: 0 <= i < |ciphertexts| ==> Matches(k, s, i)
    }
  }

  function CipherLens(records: seq<Record>): (r: seq<nat>)
    ensures |r| == |records|
  {
    seq(|records|, i requires 0 <= i < |records| => |records[i].ciphertext|)
  }

  predicate Committable(role: ZkRole, r: Record) {
    && r.plaintextRef.None? && |r.nonce| == 8
    && (role.Prover? ==> r.plaintext.Some? && |r.plaintext.value| == |r.ciphertext|)
  }

  /** A record is committed once, under an eight-byte nonce; the prover needs its whole plaintext, the verifier none. */
  lemma CommittableWhen(r: Record)
    ensures Committable(Prover, r) <==> r.plaintextRef.None? && |r.nonce| == 8 && r.plaintext.Some? && |r.plaintext.value| == |r.ciphertext|
    ensures Committable(Verifier, r) <==> r.plaintextRef.None? && |r.nonce| == 8
  {
  }

  /** Record `i`'s plaintext: taken from the back of the input, in whole blocks. */
  function RefOf(base: nat, left: nat, lens: seq<nat>, i: nat): Slice
    requires i < |lens| && PaddedTo(lens, i + 1) <= left
  {
    Slice(base + left - PaddedTo(lens, i + 1), lens[i])
  }

  /** A committed plaintext, wired to the ciphertext reference the proof decodes. */
  ghost predicate CommittedAt(s: VmState, role: ZkRole, record: Record, ref: Slice, proof: (Slice, seq<byte>)) {
    && ref.len == proof.0.len == |record.ciphertext| && proof.1 == record.ciphertext
    && Wired(s, ref.ptr, proof.0.ptr, record.nonce, ref.len)
    && Has(s, ref.ptr, ref.len)
    && (role.Prover? ==> record.plaintext == Some(BytesAt(s, ref.ptr, ref.len)))
  }

  lemma CommittedKept(s: VmState, t: VmState, role: ZkRole, record: Record, ref: Slice, proof: (Slice, seq<byte>))
    requires CommittedAt(s, role, record, ref, proof) && Extends(s, t) && t.gates == s.gates
    ensures CommittedAt(t, role, record, ref, proof)
  {
    hide Wired, Extends;
    WiredKept(s, t, ref.ptr, proof.0.ptr, record.nonce, ref.len);
    ExtendsKeeps(s, t, ref.ptr, ref.len);
  }

  method CommitOne(vm: Vm, aes: ZkAesCtr, record: Record) returns (r: Result<(Slice, Slice), ProofError>)
    requires aes.Valid(vm)
    modifies aes, vm, if aes.state.Ready? then {aes.state.keystream} else {}
    ensures r.Ok? <==> old(aes.state).Ready? && Padded(|record.ciphertext|) <= old(aes.Left()) && Committable(aes.role, record)
    ensures aes.keyed == old(aes.keyed) && (r.Ok? ==> aes.state.Ready? && aes.state.keystream == old(aes.state.keystream))
    ensures r.Ok? ==>
      && aes.Valid(vm) && aes.Left() == old(aes.Left()) - Padded(|record.ciphertext|)
      && aes.state.input.ptr == old(aes.state.input.ptr)
      && Extends(old(vm.S()), vm.S()) && vm.gates == old(vm.gates)
      && r.value.0 == Slice(aes.state.input.ptr + aes.Left(), |record.ciphertext|)
      && CommittedAt(vm.S(), aes.role, record, r.value.0, (r.value.1, record.ciphertext))
  {
    hide LockStep, Wired, Extends, SameOutside, Free, Has;
    if record.plaintextRef.Some? { return Err(PlaintextRefAlreadySet); }
    var encrypted := aes.Encrypt(vm, record.nonce, |record.ciphertext|);
    if encrypted.Err? { return Err(Aes(encrypted.error)); }
    var (plaintextRef, ciphertextRef) := encrypted.value;
    ghost var s := vm.S();
    if aes.role.Prover? && record.plaintext.None? { return Err(MissingPlaintext); }
    var commit := CommitPlaintext(vm, plaintextRef, if aes.role.Prover? then record.plaintext else None);
    if commit.Err? { return Err(ProofError.Failed(commit.error)); }
    RestFree(s, vm.S(), aes.state.keystream.blocks, aes.nc, aes.ks, aes.state.input, aes.state.output.ptr, plaintextRef);
    ExtendsTwice(old(vm.S()), s, vm.S());
    WiredKept(s, vm.S(), plaintextRef.ptr, ciphertextRef.ptr, record.nonce, plaintextRef.len);
    return Ok((plaintextRef, ciphertextRef));
  }

  /** The prover assigns the plaintext; both parties commit to it. */
  method CommitPlaintext(vm: Vm, ref: Slice, plaintext: Option<seq<byte>>) returns (r: Result<(), VmError>)
    requires vm.Valid() && ref.ptr + ref.len <= vm.next && Free(vm.S(), ref.ptr, ref.len)
    requires plaintext.Some? <==> vm.role.Prover?
    modifies vm
    ensures vm.Valid()
    ensures r.Ok? <==> (plaintext.Some? ==> |plaintext.value| == ref.len)
    ensures r.Ok? ==>
      && vm.gates == old(vm.gates) && vm.next == old(vm.next)
      && Extends(old(vm.S()), vm.S()) && SameOutside(old(vm.S()), vm.S(), ref.ptr, ref.len)
      && Has(vm.S(), ref.ptr, ref.len) && (plaintext.Some? ==> BytesAt(vm.S(), ref.ptr, ref.len) == plaintext.value)
  {
    hide Extends, SameOutside, Has;
    ghost var s := vm.S();
    if plaintext.Some? {
      r := vm.Assign(ref, plaintext.value);
      if r.Err? { return; }
    }
    ghost var m := vm.mem;
    r := vm.Commit(ref);
    if plaintext.Some? {
      assert vm.mem == m;
      BoundIs(s, vm.S(), ref.ptr, plaintext.value);
    } else {
      FilledIs(s, vm.S(), ref, vm.blindBytes);
    }
  }

  lemma FilledIs(s: VmState, t: VmState, ref: Slice, blind: nat -> byte)
    requires Free(s, ref.ptr, ref.len)
    requires t == s.(committed := s.committed + Range(ref.ptr, ref.len),
                     mem := s.mem + map a: nat | ref.ptr <= a < ref.ptr + ref.len && a !in s.mem :: blind(a))
    ensures Has(t, ref.ptr, ref.len) && Extends(s, t) && SameOutside(s, t, ref.ptr, ref.len)
  {
  }

  /** Committing the plaintext just handed out touches nothing still to be used. */
  lemma RestFree(s: VmState, t: VmState, blocks: seq<CtrBlock>, nc: nat, ks: nat, input: Slice, output: nat, ref: Slice)
    requires LockStep(s, blocks, nc, ks, input.ptr, output, input.len) && t.gates == s.gates && t.next == s.next
    requires SameOutside(s, t, ref.ptr, ref.len) && ref.ptr == input.ptr + input.len && ref.ptr + ref.len <= nc
    ensures LockStep(t, blocks, nc, ks, input.ptr, output, input.len)
  {
    LockStepKept(s, t, blocks, nc, ks, input.ptr, output, input.len);
  }

  /** What committing the first `i` records has established. */
  ghost predicate CommittedTo(s: VmState, role: ZkRole, base: nat, left: nat, was: seq<Record>, records: seq<Record>,
                              proofs: seq<(Slice, seq<byte>)>, i: nat)
  {
    && |records| == |was| && i == |proofs| <= |was|
    && forall j :: 0 <= j < i ==> EntryAt(s, role, base, left, CipherLens(was), j, was[j], records[j], proofs[j])
  }

  ghost predicate EntryAt(s: VmState, role: ZkRole, base: nat, left: nat, lens: seq<nat>, j: nat, was: Record, record: Record, proof: (Slice, seq<byte>)) {
    && j < |lens| && PaddedTo(lens, j + 1) <= left
    && record == was.(plaintextRef := Some(RefOf(base, left, lens, j)))
    && CommittedAt(s, role, was, RefOf(base, left, lens, j), proof)
  }

  lemma NoneCommitted(s: VmState, role: ZkRole, base: nat, left: nat, was: seq<Record>)
    ensures CommittedTo(s, role, base, left, was, was, [], 0)
  {
  }

  lemma CommittedStep(s: VmState, t: VmState, role: ZkRole, base: nat, left: nat, was: seq<Record>, before: seq<Record>, after: seq<Record>,
                      proofs: seq<(Slice, seq<byte>)>, i: nat, ref: Slice, proof: (Slice, seq<byte>))
    requires CommittedTo(s, role, base, left, was, before, proofs, i) && i < |was| && Extends(s, t) && t.gates == s.gates
    requires PaddedTo(CipherLens(was), i + 1) <= left && ref == RefOf(base, left, CipherLens(was), i)
    requires after == before[i := was[i].(plaintextRef := Some(ref))]
    requires CommittedAt(t, role, was[i], ref, proof)
    ensures CommittedTo(t, role, base, left, was, after, proofs + [proof], i + 1)
  {
    hide CommittedAt, PaddedTo, Extends, CipherLens;
    forall j | 0 <= j < i
      ensures EntryAt(t, role, base, left, CipherLens(was), j, was[j], after[j], proofs[j])
    {
      assert EntryAt(s, role, base, left, CipherLens(was), j, was[j], before[j], proofs[j]);
      CommittedKept(s, t, role, was[j], RefOf(base, left, CipherLens(was), j), proofs[j]);
    }
  }

  lemma CommittedLen(s: VmState, role: ZkRole, base: nat, left: nat, was: seq<Record>, records: seq<Record>, proofs: seq<(Slice, seq<byte>)>, i: nat)
    requires CommittedTo(s, role, base, left, was, records, proofs, i)
    ensures |proofs| == i
  {
  }

  lemma LensUpTo(records: seq<Record>, i: nat)
    requires i < |records|
    ensures PaddedTo(CipherLens(records), i + 1) == PaddedTo(CipherLens(records), i) + Padded(|records[i].ciphertext|)
            <= SumPadded(CipherLens(records))
    ensures CipherLens(records)[i] == |records[i].ciphertext|
    ensures PaddedTo(CipherLens(records), 0) == 0
  {
    PaddedToStep(CipherLens(records), i);
  }

  /**
   * Commits the records in place. A sequence of records is accepted exactly when their padded
   * lengths fit what was allocated; each gets its own text and an entry in the proof.
   */
  method Commit(vm: Vm, aes: ZkAesCtr, records: array<Record>) returns (r: Result<RecordProof, ProofError>)
    requires aes.Valid(vm)
    modifies aes, vm, records, if aes.state.Ready? then {aes.state.keystream} else {}
    ensures r.Ok? <==>
      && (records.Length > 0 ==> old(aes.state).Ready?)
      && SumPadded(CipherLens(old(records[..]))) <= old(aes.Left())
      && forall i :: 0 <= i < records.Length ==> Committable(aes.role, old(records[i]))
    ensures r.Ok? ==>
      && aes.Valid(vm) && Extends(old(vm.S()), vm.S())
      && aes.Left() == old(aes.Left()) - SumPadded(CipherLens(old(records[..])))
      && (records.Length > 0 ==> CommittedTo(vm.S(), aes.role, old(aes.state).input.ptr, old(aes.Left()), old(records[..]), records[..],
                                             r.value.ciphertexts, records.Length))
      && |r.value.ciphertexts| == records.Length
  {
    hide LockStep, Extends, CommittedAt, PaddedTo, CipherLens, Committable, CommittedTo;
    ghost var was, left := records[..], aes.Left();
    ghost var base := if aes.state.Ready? then aes.state.input.ptr else 0;
    ghost var s0 := vm.S();
    ExtendsSelf(s0);
    PaddedToZero(CipherLens(was));
    NoneCommitted(s0, aes.role, base, left, was);
    var ciphertexts := [];
    var i := 0;
    while i < records.Length
      invariant 0 <= i <= records.Length && aes.Valid(vm)
      invariant aes.state.Ready? <==> old(aes.state).Ready?
      invariant aes.state.Ready? ==> aes.state.input.ptr == base && aes.state.keystream == old(aes.state.keystream)
      invariant i > 0 ==> aes.state.Ready?
      invariant PaddedTo(CipherLens(was), i) <= left && aes.Left() == left - PaddedTo(CipherLens(was), i)
      invariant forall j :: 0 <= j < i ==> Committable(aes.role, was[j])
      invariant forall j :: i <= j < records.Length ==> records[j] == was[j]
      invariant Extends(s0, vm.S())
      invariant CommittedTo(vm.S(), aes.role, base, left, was, records[..], ciphertexts, i)
    {
      LensUpTo(was, i);
      ghost var s, before := vm.S(), records[..];
      var one := CommitOne(vm, aes, records[i]);
      if one.Err? { return Err(one.error); }
      var (plaintextRef, ciphertextRef) := one.value;
      records[i] := records[i].(plaintextRef := Some(plaintextRef));
      CommittedStep(s, vm.S(), aes.role, base, left, was, before, records[..], ciphertexts, i, plaintextRef, (ciphertextRef, was[i].ciphertext));
      ciphertexts := ciphertexts + [(ciphertextRef, records[i].ciphertext)];
      ExtendsTwice(s0, s, vm.S());
      i := i + 1;
    }
    CommittedLen(vm.S(), aes.role, base, left, was, records[..], ciphertexts, i);
    return Ok(RecordProof(ciphertexts));
  }

  // ---- What a proof that verifies proves ----

  lemma OneProof(k: Gctr.Key, s: VmState, role: ZkRole, record: Record, ref: Slice, proof: (Slice, seq<byte>))
    requires CommittedAt(s, role, record, ref, proof)
    ensures Decoded(k, s, proof.0.ptr, proof.0.len) == Some(proof.1)
            <==> BytesAt(s, ref.ptr, ref.len) == Gctr.Apply(k, record.nonce, record.ciphertext)
  {
    hide Gctr.Apply, Wired, Decoded;
    var plaintext := BytesAt(s, ref.ptr, ref.len);
    WiredComputes(k, s, ref.ptr, proof.0.ptr, record.nonce, ref.len);
    Gctr.ApplyTwice(k, record.nonce, plaintext);
    Gctr.ApplyTwice(k, record.nonce, record.ciphertext);
  }

  /**
   * The proof verifies, in the state it was made or any later one, exactly when every committed
   * plaintext is the GCTR decryption of its record's ciphertext.
   */
  lemma ProofMeansDecryption(k: Gctr.Key, s: VmState, t: VmState, role: ZkRole, base: nat, left: nat,
                             was: seq<Record>, records: seq<Record>, proof: RecordProof)
    requires CommittedTo(s, role, base, left, was, records, proof.ciphertexts, |was|) && Extends(s, t) && t.gates == s.gates
    ensures proof.Verifies(k, t) <==> forall i :: 0 <= i < |was| ==> Decrypts(k, t, records[i])
  {
    hide CommittedAt, Extends, Decoded, Gctr.Apply, PaddedTo;
    forall i | 0 <= i < |was|
      ensures proof.Matches(k, t, i) <==> Decrypts(k, t, records[i])
    {
      assert EntryAt(s, role, base, left, CipherLens(was), i, was[i], records[i], proof.ciphertexts[i]);
      var ref := RefOf(base, left, CipherLens(was), i);
      CommittedKept(s, t, role, was[i], ref, proof.ciphertexts[i]);
      HasRef(t, role, was[i], ref, proof.ciphertexts[i]);
      OneProof(k, t, role, was[i], ref, proof.ciphertexts[i]);
    }
  }

  lemma HasRef(s: VmState, role: ZkRole, record: Record, ref: Slice, proof: (Slice, seq<byte>))
    requires CommittedAt(s, role, record, ref, proof)
    ensures Has(s, ref.ptr, ref.len) && proof.1 == record.ciphertext
    ensures role.Prover? ==> record.plaintext == Some(BytesAt(s, ref.ptr, ref.len))
  {
  }

  predicate Decrypts(k: Gctr.Key, s: VmState, record: Record) {
    && record.plaintextRef.Some?
    && var ref := record.plaintextRef.value;
       Has(s, ref.ptr, ref.len) && BytesAt(s, ref.ptr, ref.len) == Gctr.Apply(k, record.nonce, record.ciphertext)
  }

  /** Round trip: a prover whose plaintexts come from local decryption is always accepted. */
  lemma HonestProverAccepted(k: Gctr.Key, s: VmState, base: nat, left: nat, was: seq<Record>, records: seq<Record>, proof: RecordProof)
    requires CommittedTo(s, Prover, base, left, was, records, proof.ciphertexts, |was|)
    requires forall i :: 0 <= i < |was| ==> was[i].plaintext == Some(Gctr.Apply(k, was[i].nonce, was[i].ciphertext))
    ensures proof.Verifies(k, s)
  {
    hide CommittedAt, Extends, Decoded, Gctr.Apply, PaddedTo;
    ExtendsSelf(s);
    ProofMeansDecryption(k, s, s, Prover, base, left, was, records, proof);
    forall i | 0 <= i < |was|
      ensures Decrypts(k, s, records[i])
    {
      assert EntryAt(s, Prover, base, left, CipherLens(was), i, was[i], records[i], proof.ciphertexts[i]);
      HasRef(s, Prover, was[i], RefOf(base, left, CipherLens(was), i), proof.ciphertexts[i]);
    }
  }

  /** No two records share text: a later record's lies wholly before an earlier one's. */
  lemma RefsDisjoint(base: nat, left: nat, lens: seq<nat>, i: nat, j: nat)
    requires i < j < |lens| && SumPadded(lens) <= left
    ensures PaddedTo(lens, i + 1) <= left && PaddedTo(lens, j + 1) <= left
    ensures var x, y := RefOf(base, left, lens, i), RefOf(base, left, lens, j);
      base <= y.ptr && y.ptr + y.len <= x.ptr && x.ptr + x.len <= base + left
  {
    hide PaddedTo;
    PaddedToStep(lens, i);
    PaddedToStep(lens, j);
    PaddedToMonotone(lens, i + 1, j);
  }
}
