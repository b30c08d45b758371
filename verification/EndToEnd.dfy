/**
 * From the record layer to disclosure: what the leader received over a connection can be proven
 * in the zero-knowledge VM, and any part of it then passes the verifier's comparison.
 */
module EndToEnd {
  import opened Bytes
  import opened Parties
  import opened RecordTypes
  import opened ZkVm
  import opened CommitRecords
  import opened Refs = TranscriptRefs
  import opened PartialTranscripts
  import opened Disclosure
  import opened ProtocolSpec
  import opened RecordLayerSpec
  import ProtocolTheorems
  import RecordLayerRuns
  import RecordLayerTheorems
  import Ranges
  import Gctr
  import ZkAes

  /** Every application record the leader received carries the GCTR decryption of its ciphertext, and no text yet. */
  lemma ReceivedAreDecrypted(k: Gctr.Key, decs: seq<RecordLayerRuns.DecPush>, i: nat)
    requires var app := ApplicationRecords(RecordLayerTheorems.RecvTranscript(k, Leader, decs)); i < |app|
    ensures var r := ApplicationRecords(RecordLayerTheorems.RecvTranscript(k, Leader, decs))[i];
      r.plaintext == Some(Gctr.Apply(k, r.nonce, r.ciphertext)) && r.plaintextRef.None?
  {
    hide Gctr.Apply, Aad;
    ApplicationAreRecords(RecordLayerTheorems.RecvTranscript(k, Leader, decs), i);
  }

  // ---- What the VM holds after a connection ----

  /** The text of every private record sent, at the address its position determines. */
  ghost predicate HoldsTexts(memory: nat -> byte, a0: Aead, encs: seq<RecordLayerRuns.EncPush>) {
    forall i :: 0 <= i < |encs| && encs[i].mode.Private? ==> HoldsText(memory, a0, RecordLayerRuns.PushLens(encs), i, encs[i].Input())
  }

  predicate HoldsText(memory: nat -> byte, a0: Aead, lens: seq<nat>, i: nat, text: seq<byte>) {
    i < |lens| && PaddedTo(lens, i + 1) <= a0.left ==>
      forall x :: 0 <= x < |text| ==> memory(TextRef(a0, lens, i).ptr + x) == text[x]
  }

  /** The prover's committed bytes are in the memory both parties evaluate over. */
  ghost predicate HoldsCommitted(memory: nat -> byte, s: VmState) {
    forall a: nat :: a in s.mem && a in s.committed ==> memory(a) == s.mem[a]
  }

  /** Committed records hold their plaintexts where their references point. */
  lemma CommittedHold(memory: nat -> byte, s: VmState, base: nat, left: nat, was: seq<Record>, records: seq<Record>,
                      proofs: seq<(Slice, seq<byte>)>, i: nat)
    requires CommittedTo(s, Prover, base, left, was, records, proofs, |was|) && i < |was| && HoldsCommitted(memory, s)
    ensures HeldAt(memory, records[i]) && records[i].plaintext == was[i].plaintext
  {
    hide PaddedTo, CommittedAt;
    assert EntryAt(s, Prover, base, left, CipherLens(was), i, was[i], records[i], proofs[i]);
    var ref := RefOf(base, left, CipherLens(was), i);
    HasRef(s, Prover, was[i], ref, proofs[i]);
    var plaintext := BytesAt(s, ref.ptr, ref.len);
    forall j | 0 <= j < ref.len
      ensures memory(ref.ptr + j) == plaintext[j]
    {
      assert ref.ptr + j in s.mem && ref.ptr + j in s.committed;
    }
  }

  /** So do the application records sent, since exactly those are private. */
  lemma SentHold(memory: nat -> byte, k: Gctr.Key, a0: Aead, encs: seq<RecordLayerRuns.EncPush>, decs: seq<RecordLayerRuns.DecPush>, sent: seq<Record>, i: nat)
    requires ProtocolTheorems.LeaderUsage(encs, decs) && RecordLayerTheorems.SentTranscript(k, a0, encs, sent)
    requires HoldsTexts(memory, a0, encs) && Sized(encs) && i < |ApplicationRecords(sent)|
    ensures HeldAt(memory, ApplicationRecords(sent)[i])
  {
    hide Gctr.Apply, Aad, Be, PaddedTo, HeldAt, HoldsText;
    ApplicationAreRecords(sent, i);
    var j :| 0 <= j < |sent| && sent[j] == ApplicationRecords(sent)[i] && sent[j].typ == ApplicationData;
    var lens := RecordLayerRuns.PushLens(encs);
    assert RecordLayerRuns.SentAt(k, a0, lens, j, encs[j], sent[j]);
    assert ProtocolTheorems.LeaderPush(encs[j]);
    assert HoldsText(memory, a0, lens, j, encs[j].Input());
    TextHeld(memory, k, a0, lens, j, encs[j], sent[j]);
  }

  lemma TextHeld(memory: nat -> byte, k: Gctr.Key, a0: Aead, lens: seq<nat>, i: nat, p: RecordLayerRuns.EncPush, record: Record)
    requires RecordLayerRuns.SentAt(k, a0, lens, i, p, record) && HoldsText(memory, a0, lens, i, p.Input())
    requires p.mode.Private? && p.plaintext.Some? && |p.Input()| == lens[i]
    ensures HeldAt(memory, record)
  {
    hide Gctr.Apply, Aad, Be, PaddedTo;
  }

  predicate Sized(encs: seq<RecordLayerRuns.EncPush>) {
    forall i :: 0 <= i < |encs| ==> |encs[i].Input()| == encs[i].len
  }

  lemma OutgoingSized(calls: seq<Call>)
    ensures Sized(ProtocolTheorems.Outgoing(calls))
  {
  }

  // ---- The verifier's references are the prover's ----

  lemma {:induction false} ApplicationShows(f: seq<Record>, l: seq<Record>)
    requires ProtocolTheorems.AllShow(f, l)
    ensures ProtocolTheorems.AllShow(ApplicationRecords(f), ApplicationRecords(l))
    decreases |l|
  {
    if l != [] {
      var m := |l| - 1;
      ApplicationShows(f[..m], l[..m]);
      assert ProtocolTheorems.Shows(f[m], l[m]);
    }
  }

  /** Text references come from lengths alone, so both parties commit to the same ones. */
  lemma SameRefs(s: VmState, sv: VmState, base: nat, left: nat, was: seq<Record>, wasV: seq<Record>,
                 records: seq<Record>, recordsV: seq<Record>, proofs: seq<(Slice, seq<byte>)>, proofsV: seq<(Slice, seq<byte>)>)
    requires ProtocolTheorems.AllShow(wasV, was)
    requires CommittedTo(s, Prover, base, left, was, records, proofs, |was|)
    requires CommittedTo(sv, Verifier, base, left, wasV, recordsV, proofsV, |wasV|)
    ensures AllReferenced(records) && AllReferenced(recordsV) && RefsOf(records) == RefsOf(recordsV)
  {
    hide PaddedTo, CommittedAt;
    forall i | 0 <= i < |was|
      ensures CipherLens(wasV)[i] == CipherLens(was)[i]
    {
      assert ProtocolTheorems.Shows(wasV[i], was[i]);
    }
    assert CipherLens(wasV) == CipherLens(was);
    forall i | 0 <= i < |was|
      ensures records[i].plaintextRef.Some? && records[i].plaintextRef == recordsV[i].plaintextRef
    {
      assert EntryAt(s, Prover, base, left, CipherLens(was), i, was[i], records[i], proofs[i]);
      assert EntryAt(sv, Verifier, base, left, CipherLens(wasV), i, wasV[i], recordsV[i], proofsV[i]);
    }
  }

  // ---- From the connection to the disclosure ----

  /** Both parties' committed application records after a closed connection, and the memory their VM holds. */
  ghost predicate Proved(vm: ProtocolSpec.Vm, l0: LeaderState, calls: seq<Call>, l: LeaderState, f: TlsTranscript, memory: nat -> byte,
                         s: VmState, sv: VmState, base: nat, left: nat, recv: seq<Record>, recvV: seq<Record>,
                         proofs: seq<(Slice, seq<byte>)>, proofsV: seq<(Slice, seq<byte>)>)
  {
    && ProtocolTheorems.Closes(vm, l0, calls, l)
    && ProtocolTheorems.AllShow(f.sent, l.transcript.value.sent) && ProtocolTheorems.AllShow(f.recv, l.transcript.value.recv)
    && CommittedTo(s, Prover, base, left, ApplicationRecords(l.transcript.value.recv), recv, proofs, |ApplicationRecords(l.transcript.value.recv)|)
    && CommittedTo(sv, Verifier, base, left, ApplicationRecords(f.recv), recvV, proofsV, |ApplicationRecords(f.recv)|)
    && HoldsCommitted(memory, s) && HoldsCommitted(memory, sv)
    && HoldsTexts(memory, l0.s.v.enc, ProtocolTheorems.Outgoing(calls))
  }

  /**
   * The received records: the verifier's proof of encryption verifies, its references are the
   * prover's, and the VM holds the prover's plaintexts there.
   */
  lemma ReceivedProved(vm: ProtocolSpec.Vm, l0: LeaderState, calls: seq<Call>, l: LeaderState, f: TlsTranscript, memory: nat -> byte,
                       s: VmState, sv: VmState, base: nat, left: nat, recv: seq<Record>, recvV: seq<Record>,
                       proofs: seq<(Slice, seq<byte>)>, proofsV: seq<(Slice, seq<byte>)>)
    requires Proved(vm, l0, calls, l, f, memory, s, sv, base, left, recv, recvV, proofs, proofsV)
    ensures RecordProof(proofsV).Verifies(vm.keys.server, sv)
    ensures AllReferenced(recvV) && AllReferenced(recv) && RefsOf(recvV) == RefsOf(recv)
    ensures forall i :: 0 <= i < |recv| ==> HeldAt(memory, recv[i])
  {
    hide Gctr.Apply, PaddedTo, CommittedAt, HeldAt, RecordLayerTheorems.RecvTranscript, ApplicationRecords,
         RecordLayerTheorems.SentTranscript, HoldsTexts, RecordProof.Verifies, ProtocolTheorems.LeaderUsage, HoldsCommitted;
    var k := vm.keys.server;
    var was, wasV := ApplicationRecords(l.transcript.value.recv), ApplicationRecords(f.recv);
    ApplicationShows(f.recv, l.transcript.value.recv);
    SameRefs(s, sv, base, left, was, wasV, recv, recvV, proofs, proofsV);
    forall i | 0 <= i < |was|
      ensures HeldAt(memory, recv[i]) && Decrypts(k, sv, recvV[i])
    {
      ReceivedAreDecrypted(k, ProtocolTheorems.Incoming(calls), i);
      CommittedHold(memory, s, base, left, was, recv, proofs, i);
      VerifierDecrypts(k, memory, s, sv, base, left, was, wasV, recv, recvV, proofs, proofsV, i);
    }
    ProofMeansDecryption(k, sv, sv, Verifier, base, left, wasV, recvV, RecordProof(proofsV));
  }

  /** What the verifier is blind to is what the prover committed: the decryption. */
  lemma VerifierDecrypts(k: Gctr.Key, memory: nat -> byte, s: VmState, sv: VmState, base: nat, left: nat, was: seq<Record>, wasV: seq<Record>,
                         recv: seq<Record>, recvV: seq<Record>, proofs: seq<(Slice, seq<byte>)>, proofsV: seq<(Slice, seq<byte>)>, i: nat)
    requires ProtocolTheorems.AllShow(wasV, was) && i < |was|
    requires CommittedTo(s, Prover, base, left, was, recv, proofs, |was|)
    requires CommittedTo(sv, Verifier, base, left, wasV, recvV, proofsV, |wasV|)
    requires HoldsCommitted(memory, s) && HoldsCommitted(memory, sv)
    requires was[i].plaintext == Some(Gctr.Apply(k, was[i].nonce, was[i].ciphertext))
    ensures Decrypts(k, sv, recvV[i])
  {
    hide PaddedTo, Gctr.Apply, ZkAes.Wired;
    SameRefs(s, sv, base, left, was, wasV, recv, recvV, proofs, proofsV);
    CommittedHold(memory, s, base, left, was, recv, proofs, i);
    assert ProtocolTheorems.Shows(wasV[i], was[i]);
    assert EntryAt(s, Prover, base, left, CipherLens(was), i, was[i], recv[i], proofs[i]);
    assert EntryAt(sv, Verifier, base, left, CipherLens(wasV), i, wasV[i], recvV[i], proofsV[i]);
    var ref := recvV[i].plaintextRef.value;
    assert RefsOf(recv)[i] == RefsOf(recvV)[i];
    forall j | 0 <= j < ref.len
      ensures BytesAt(sv, ref.ptr, ref.len)[j] == was[i].plaintext.value[j]
    {
      assert ref.ptr + j in sv.mem && ref.ptr + j in sv.committed;
    }
  }

  /** The application records sent: the verifier has the prover's references, and the VM holds the plaintexts there. */
  lemma SentProved(vm: ProtocolSpec.Vm, l0: LeaderState, calls: seq<Call>, l: LeaderState, f: seq<Record>, memory: nat -> byte)
    requires ProtocolTheorems.Closes(vm, l0, calls, l) && ProtocolTheorems.AllShow(f, l.transcript.value.sent)
    requires HoldsTexts(memory, l0.s.v.enc, ProtocolTheorems.Outgoing(calls))
    ensures var sent, sentV := ApplicationRecords(l.transcript.value.sent), ApplicationRecords(f);
      && (forall i :: 0 <= i < |sent| ==> HeldAt(memory, sent[i]))
      && AllReferenced(sent) && AllReferenced(sentV) && RefsOf(sentV) == RefsOf(sent)
  {
    hide RecordLayerTheorems.SentTranscript, HoldsTexts, Sized, ApplicationRecords, ProtocolTheorems.LeaderUsage,
         ProtocolTheorems.Outgoing, ProtocolTheorems.Incoming, RecordLayerTheorems.RecvTranscript;
    var sent, sentV := ApplicationRecords(l.transcript.value.sent), ApplicationRecords(f);
    ApplicationShows(f, l.transcript.value.sent);
    OutgoingSized(calls);
    forall i | 0 <= i < |sent|
      ensures HeldAt(memory, sent[i]) && sentV[i].plaintextRef == sent[i].plaintextRef
    {
      SentHold(memory, vm.keys.client, l0.s.v.enc, ProtocolTheorems.Outgoing(calls), ProtocolTheorems.Incoming(calls), l.transcript.value.sent, i);
      assert ProtocolTheorems.Shows(sentV[i], sent[i]);
    }
  }

  /**
   * From the connection to the disclosure. Both parties ran a connection to its end and committed
   * to its received application records. Then the verifier's proof of encryption verifies, and
   * whatever part of the transcript the prover discloses, of either direction, the verifier
   * accepts against its own references.
   */
  lemma DisclosureAccepted(vm: ProtocolSpec.Vm, l0: LeaderState, calls: seq<Call>, l: LeaderState, f: TlsTranscript, memory: nat -> byte,
                           s: VmState, sv: VmState, base: nat, left: nat, recv: seq<Record>, recvV: seq<Record>,
                           proofs: seq<(Slice, seq<byte>)>, proofsV: seq<(Slice, seq<byte>)>, sentIdx: Ranges.Idx, recvIdx: Ranges.Idx)
    requires Proved(vm, l0, calls, l, f, memory, s, sv, base, left, recv, recvV, proofs, proofsV)
    ensures var sent, sentV := ApplicationRecords(l.transcript.value.sent), ApplicationRecords(f.sent);
      && RecordProof(proofsV).Verifies(vm.keys.server, sv)
      && AllPlain(sent) && AllPlain(recv) && AllReferenced(sentV) && AllReferenced(recvV)
      && (Ranges.InBounds(sentIdx, |Plaintexts(sent)|) && Ranges.InBounds(recvIdx, |Plaintexts(recv)|)
          && |Plaintexts(sent)| < U32 && |Plaintexts(recv)| < U32 ==>
            Acceptable(memory, TranscriptRefs(RefsOf(sentV), RefsOf(recvV)),
                       PartialTranscripts.View(Disclosed(Plaintexts(sent), sentIdx), Disclosed(Plaintexts(recv), recvIdx))))
  {
    hide Plaintexts, AddrsTo, HeldAt, Truthful, ApplicationRecords, CommittedTo, HoldsTexts, HoldsCommitted,
         RecordProof.Verifies, ProtocolTheorems.Closes, ProtocolTheorems.AllShow, Disclosed, LengthOf;
    ClosesHasTranscript(vm, l0, calls, l);
    ReceivedProved(vm, l0, calls, l, f, memory, s, sv, base, left, recv, recvV, proofs, proofsV);
    SentProved(vm, l0, calls, l, f.sent, memory);
    var sent := ApplicationRecords(l.transcript.value.sent);
    RefsHoldTranscript(memory, sent);
    RefsHoldTranscript(memory, recv);
    if Ranges.InBounds(sentIdx, |Plaintexts(sent)|) && Ranges.InBounds(recvIdx, |Plaintexts(recv)|) {
      HonestDisclosure(memory, sent, sentIdx);
      HonestDisclosure(memory, recv, recvIdx);
    }
  }

  lemma ClosesHasTranscript(vm: ProtocolSpec.Vm, l0: LeaderState, calls: seq<Call>, l: LeaderState)
    requires ProtocolTheorems.Closes(vm, l0, calls, l)
    ensures l.transcript.Some?
  {
  }
}
