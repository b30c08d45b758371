/**
 * What the record layer's results are, written out field by field: which operations a flush
 * takes, what is released and recorded for each push, and that nothing unauthenticated is.
 */
module RecordLayerLaws {
  import opened Bytes
  import opened Parties
  import opened RecordTypes
  import opened RecordLayerSpec
  import opened RecordLayerRuns
  import opened RecordLayerTheorems
  import Gctr

  // ---- What a flush takes ----

  lemma {:induction false} FirstSplits(ops: seq<DecryptOp>)
    ensures var n := FirstApplicationData(ops);
      && (forall i :: 0 <= i < n ==> ops[i].typ != ApplicationData)
      && (n < |ops| ==> ops[n].typ == ApplicationData)
  {
  }

  lemma NothingTaken()
    ensures Sum(DecLens([])) == 0
  {
  }

  lemma TextFits(a: Aead, ops: seq<EncryptOp>)
    requires EncryptsFit(a, ops)
    ensures SumPadded(EncLens(ops)) <= a.left
  {
  }

  /**
   * A successful flush takes all pending encrypts, and of the pending decrypts a prefix: all of
   * them when decrypting, else those before the first application data. Each taken operation
   * becomes one record and one output; the online quota is charged only when decrypting.
   */
  lemma FlushTakes(k: Keys, v: View, isDecrypting: bool, inputs: seq<seq<byte>>)
    requires CanFlush(k, v, isDecrypting) && InputsOf(v.encryptBuffer, inputs)
    ensures var w := Flushed(k, v, isDecrypting, inputs);
      && w.encryptBuffer == [] && |w.decryptBuffer| <= |v.decryptBuffer|
      && var n := |v.decryptBuffer| - |w.decryptBuffer|;
         && w.decryptBuffer == v.decryptBuffer[n..]
         && (isDecrypting ==> w.decryptBuffer == [])
         && (!isDecrypting ==>
               && (forall i :: 0 <= i < n ==> v.decryptBuffer[i].typ != ApplicationData)
               && (w.decryptBuffer != [] ==> w.decryptBuffer[0].typ == ApplicationData))
         && v.phase.Online? && w.phase.Online?
         && |w.phase.recvRecords| == |v.phase.recvRecords| + n && |w.decryptedBuffer| == |v.decryptedBuffer| + n
         && |w.phase.sentRecords| == |v.phase.sentRecords| + |v.encryptBuffer|
         && |w.encryptedBuffer| == |v.encryptedBuffer| + |v.encryptBuffer|
         && v.phase.sentRecords <= w.phase.sentRecords && v.phase.recvRecords <= w.phase.recvRecords
         && v.encryptedBuffer <= w.encryptedBuffer && v.decryptedBuffer <= w.decryptedBuffer
         && w.recvOnline == v.recvOnline + (if isDecrypting then Sum(DecLens(v.decryptBuffer[..n])) else 0)
         && (isDecrypting && n > 0 ==> w.recvOnline <= v.maxRecvOnline)
  {
    hide EncryptedAll, SentAll, PlainAll, RecvAll, EncryptsFit, DecryptsFit, TagsVerify, SumPadded, Sum, DecLens, PrivateLens,
         EncLens, Remaining, FirstApplicationData;
    FirstSplits(v.decryptBuffer);
    NothingTaken();
    assert v.decryptBuffer[0..] == v.decryptBuffer;
    if v.encryptBuffer != [] || FlushCount(v, isDecrypting) > 0 {
      TextFits(v.enc, v.encryptBuffer);
    }
  }

  /** And it succeeds exactly when quota, text, keystream, pad, masks and hash-key powers suffice and every tag is right. */
  lemma FlushWhen(k: Keys, v: View, isDecrypting: bool, n: nat)
    requires n <= |v.decryptBuffer| && (isDecrypting ==> n == |v.decryptBuffer|)
    requires !isDecrypting ==> (forall i :: 0 <= i < n ==> v.decryptBuffer[i].typ != ApplicationData)
    requires !isDecrypting && n < |v.decryptBuffer| ==> v.decryptBuffer[n].typ == ApplicationData
    ensures var ops := v.decryptBuffer[..n];
      CanFlush(k, v, isDecrypting) <==>
        && v.phase.Online?
        && ((v.encryptBuffer == [] && n == 0) ||
            (&& (isDecrypting ==> v.recvOnline + Sum(DecLens(ops)) <= v.maxRecvOnline)
            && v.enc.phase.Ready? && SumPadded(EncLens(v.encryptBuffer)) <= v.enc.left && |v.encryptBuffer| <= v.enc.j0s
            && (forall i :: 0 <= i < |v.encryptBuffer| ==>
                  var op := v.encryptBuffer[i];
                  && |op.nonce| == 8 && (op.mode.Public? ==> op.len > 0 && op.plaintext.Some?)
                  && (|op.aad| + 15) / 16 + (op.len + 15) / 16 + 1 <= 1026)
            && v.dec.phase.Ready? && SumPadded(DecLens(ops)) <= v.dec.left && n <= v.dec.j0s
            && (v.phase.recvOtp.Some? ==> Sum(PrivateLens(ops)) <= |v.phase.recvOtp.value|)
            && (forall i :: 0 <= i < n ==>
                  var op := v.decryptBuffer[i];
                  && |op.nonce| == 8 && (op.mode.Public? ==> |op.ciphertext| > 0)
                  && (|op.aad| + 15) / 16 + (|op.ciphertext| + 15) / 16 + 1 <= 1026
                  && op.tag == Gctr.Tag(k.server, op.nonce, op.aad, op.ciphertext))))
  {
    hide Sum, SumPadded, DecLens, EncLens, PrivateLens, Gctr.Tag;
    SplitOnce(v.decryptBuffer, n, isDecrypting);
    var ops := v.decryptBuffer[..n];
    assert forall i :: 0 <= i < n ==> ops[i] == v.decryptBuffer[i];
  }

  /** There is only one place to split. */
  lemma SplitOnce(ops: seq<DecryptOp>, n: nat, isDecrypting: bool)
    requires n <= |ops| && (isDecrypting ==> n == |ops|)
    requires !isDecrypting ==> (forall i :: 0 <= i < n ==> ops[i].typ != ApplicationData)
    requires !isDecrypting && n < |ops| ==> ops[n].typ == ApplicationData
    ensures n == if isDecrypting then |ops| else FirstApplicationData(ops)
  {
    FirstSplits(ops);
  }

  /** A commit succeeds exactly when nothing is left to encrypt, every pending tag is right, and public records have keystream. */
  lemma CommitWhen(k: Keys, v: View)
    ensures CanCommit(k, v) <==>
      && v.phase.Online? && v.encryptBuffer == []
      && v.dec.phase.Ready? && |v.decryptBuffer| <= v.dec.j0s && SumPadded(PublicLens(v.decryptBuffer)) <= v.dec.left
      && forall i :: 0 <= i < |v.decryptBuffer| ==>
           var op := v.decryptBuffer[i];
           && |op.nonce| == 8 && (op.mode.Public? ==> |op.ciphertext| > 0)
           && (|op.aad| + 15) / 16 + (|op.ciphertext| + 15) / 16 + 1 <= 1026
           && op.tag == Gctr.Tag(k.server, op.nonce, op.aad, op.ciphertext)
  {
    hide SumPadded, PublicLens, Gctr.Tag;
  }

  /** A batch counts each length once. */
  lemma BatchLens(enc: seq<EncryptOp>, dec: seq<DecryptOp>)
    ensures forall i :: 0 <= i < |enc| ==> EncLens(enc)[i] == enc[i].len
    ensures forall i :: 0 <= i < |dec| ==> DecLens(dec)[i] == |dec[i].ciphertext|
    ensures forall i :: 0 <= i < |dec| ==> PrivateLens(dec)[i] == if dec[i].mode.Private? then |dec[i].ciphertext| else 0
    ensures forall i :: 0 <= i < |dec| ==> PublicLens(dec)[i] == if dec[i].mode.Private? then 0 else |dec[i].ciphertext|
  {
  }

  // ---- The other calls ----

  /** When each call is accepted: at most 1022 pending operations, and nothing beyond the limits. */
  lemma AcceptedWhen(v: View, len: nat, plaintext: Option<seq<byte>>, mode: Mode, ciphertext: seq<byte>, sentLen: nat, recvLenOnline: nat)
    ensures CanPushEncrypt(v, len, plaintext, mode) <==>
      && |v.encryptBuffer| < 1022 && v.sent + len <= v.maxSent
      && (plaintext.Some? ==> |plaintext.value| == len) && (mode.Public? ==> plaintext.Some?)
    ensures CanPushDecrypt(v, ciphertext) <==> |v.decryptBuffer| < 1022 && v.recv + |ciphertext| <= v.maxRecv
    ensures CanPopEncrypted(v) <==> v.encryptedBuffer != [] && (v.started || v.encryptedBuffer[0].typ != ApplicationData)
    ensures CanPopDecrypted(v) <==> v.decryptedBuffer != [] && (v.started || v.decryptedBuffer[0].typ != ApplicationData)
    ensures CanAlloc(v, sentLen, recvLenOnline) <==>
      v.phase.Init? && v.enc.phase.Unallocated? && v.dec.phase.Unallocated? && sentLen > 0 && recvLenOnline > 0
    ensures CanSetup(v) <==> v.enc.phase.Awaiting? && v.dec.phase.Awaiting?
  {
  }

  /** What an allocation provides: the limits, whole blocks of text, a mask for each record, and the leader's pad. */
  lemma AllocatesLimits(role: Role, sentBase: nat, recvBase: nat, sentRecords: nat, recvRecords: nat,
                        sentLen: nat, recvLenOnline: nat, recvLen: nat, otp: seq<byte>)
    ensures var v := Allocated(Initial(role), sentBase, recvBase, sentRecords, recvRecords, sentLen, recvLenOnline, recvLen, otp);
      && v.role == role && v.maxSent == sentLen && v.maxRecvOnline == recvLenOnline && v.maxRecv == recvLen
      && v.enc == Aead(Awaiting, sentBase, 16 * ((sentLen + 15) / 16), sentRecords)
      && v.dec == Aead(Awaiting, recvBase, 16 * ((recvLenOnline + 15) / 16), recvRecords)
      && v.phase == Online(if role.Leader? then Some(otp) else None, [], [])
      && v.sent == v.recv == v.recvOnline == v.writeSeq == v.readSeq == 0 && !v.started
  {
  }

  // ---- What is released and recorded for each push ----

  /** On every run of the leader, the `i`-th record popped is the GCTR decryption of the `i`-th ciphertext pushed. */
  lemma LeaderPopsPlaintext(k: Keys, v0: View, events: seq<Event>, i: nat)
    requires Fresh(v0) && v0.role.Leader? && Run(k, Begin(v0), events).Some?
    requires i < |Run(k, Begin(v0), events).value.poppedDec|
    ensures i < |DecPushes(events)|
    ensures var p := DecPushes(events)[i];
      Run(k, Begin(v0), events).value.poppedDec[i] == PlainRecord(p.typ, p.version, Some(Gctr.Apply(k.server, p.nonce, p.ciphertext)))
  {
    hide Run, Gctr.Apply, Aad;
    PoppedIsPrefix(k, v0, events);
  }

  /** The follower's outputs carry a plaintext exactly for public records. */
  lemma FollowerPopsPublic(k: Keys, v0: View, events: seq<Event>, i: nat)
    requires Fresh(v0) && v0.role.Follower? && Run(k, Begin(v0), events).Some?
    requires i < |Run(k, Begin(v0), events).value.poppedDec|
    ensures i < |DecPushes(events)|
    ensures var p := DecPushes(events)[i];
      Run(k, Begin(v0), events).value.poppedDec[i]
      == PlainRecord(p.typ, p.version, if p.mode.Public? then Some(Gctr.Apply(k.server, p.nonce, p.ciphertext)) else None)
  {
    hide Run, Gctr.Apply, Aad;
    PoppedIsPrefix(k, v0, events);
  }

  /** After a commit, what was and still can be popped is one plaintext for every ciphertext pushed. */
  lemma CommittedPlaintexts(k: Keys, v0: View, events: seq<Event>, i: nat)
    requires Fresh(v0) && v0.role.Leader? && Run(k, Begin(v0), events).Some?
    requires CanCommit(k, Run(k, Begin(v0), events).value.v) && i < |DecPushes(events)|
    ensures var t, p := Run(k, Begin(v0), events).value, DecPushes(events)[i];
      var outputs := t.poppedDec + Committed(k, t.v).decryptedBuffer;
      && |outputs| == |DecPushes(events)|
      && outputs[i] == PlainRecord(p.typ, p.version, Some(Gctr.Apply(k.server, p.nonce, p.ciphertext)))
  {
    hide Run, Gctr.Apply, Aad, CanCommit, Committed, TranscriptOf;
    TranscriptFollowsPushes(k, v0, events);
  }

  /** On every run of the leader, the `i`-th record emitted has nonce `i`, the GCTR ciphertext of the `i`-th input, and its own tag. */
  lemma LeaderEmitsCiphertext(k: Keys, v0: View, events: seq<Event>, i: nat)
    requires Fresh(v0) && v0.role.Leader? && Run(k, Begin(v0), events).Some?
    requires i < |Run(k, Begin(v0), events).value.poppedEnc|
    ensures i < |EncPushes(events)|
    ensures var p := EncPushes(events)[i];
      var ciphertext := Gctr.Apply(k.client, Be(i, 8), p.Input());
      Run(k, Begin(v0), events).value.poppedEnc[i]
      == EncryptedRecord(p.typ, p.version, Be(i, 8), ciphertext, Some(Gctr.Tag(k.client, Be(i, 8), Aad(i, p.typ, p.version, p.len), ciphertext)))
  {
    hide Run, Gctr.Apply, Gctr.Tag, Aad, Be;
    PoppedIsPrefix(k, v0, events);
  }

  /** After a commit, one emitted record for every push. */
  lemma CommittedCiphertexts(k: Keys, v0: View, events: seq<Event>, i: nat)
    requires Fresh(v0) && v0.role.Leader? && Run(k, Begin(v0), events).Some?
    requires CanCommit(k, Run(k, Begin(v0), events).value.v) && i < |EncPushes(events)|
    ensures var t, p := Run(k, Begin(v0), events).value, EncPushes(events)[i];
      var outputs, ciphertext := t.poppedEnc + Committed(k, t.v).encryptedBuffer, Gctr.Apply(k.client, Be(i, 8), p.Input());
      && |outputs| == |EncPushes(events)|
      && outputs[i] == EncryptedRecord(p.typ, p.version, Be(i, 8), ciphertext,
                                       Some(Gctr.Tag(k.client, Be(i, 8), Aad(i, p.typ, p.version, p.len), ciphertext)))
  {
    hide Run, Gctr.Apply, Gctr.Tag, Aad, Be, CanCommit, Committed, TranscriptOf, SentTranscript;
    TranscriptFollowsPushes(k, v0, events);
  }

  /** The transcript's `i`-th sent record: its number, the plaintext this party knows, the text it lies at if private, its ciphertext. */
  lemma SentRecordIs(k: Keys, v0: View, events: seq<Event>, i: nat)
    requires Fresh(v0) && Run(k, Begin(v0), events).Some?
    requires CanCommit(k, Run(k, Begin(v0), events).value.v) && i < |EncPushes(events)|
    ensures var sent, p := TranscriptOf(k, Run(k, Begin(v0), events).value.v).sent, EncPushes(events)[i];
      && |sent| == |EncPushes(events)| && PaddedTo(PushLens(EncPushes(events)), i + 1) <= v0.enc.left
      && var at := v0.enc.base + v0.enc.left - PaddedTo(PushLens(EncPushes(events)), i + 1);
         sent[i] == Record(i, p.typ, p.plaintext, if p.mode.Private? then Some(Slice(at, p.len)) else None,
                           Be(i, 8), Gctr.Apply(k.client, Be(i, 8), p.Input()))
  {
    hide Run, Gctr.Apply, Gctr.Tag, Aad, Be, CanCommit, Committed, TranscriptOf, PaddedTo;
    TranscriptFollowsPushes(k, v0, events);
    var sent := TranscriptOf(k, Run(k, Begin(v0), events).value.v).sent;
    assert SentAt(k.client, v0.enc, PushLens(EncPushes(events)), i, EncPushes(events)[i], sent[i]);
  }

  // ---- Only authenticated records are processed ----

  /** Every record processed so far carried the tag of its number, type, version, nonce and ciphertext. */
  predicate Authentic(k: Gctr.Key, s: Session) {
    && s.v.phase.Online? && |s.v.phase.recvRecords| <= |s.decs|
    && forall i :: 0 <= i < |s.v.phase.recvRecords| ==> Authenticated(k, i, s.decs[i])
  }

  predicate Authenticated(k: Gctr.Key, i: nat, p: DecPush) {
    |p.nonce| == 8 && p.tag == Gctr.Tag(k, p.nonce, Aad(i, p.typ, p.version, |p.ciphertext|), p.ciphertext)
  }

  lemma FlushVerifies(k: Keys, v: View, isDecrypting: bool, j: nat)
    requires CanFlush(k, v, isDecrypting) && j < FlushCount(v, isDecrypting)
    ensures TagVerifies(k.server, v.decryptBuffer[j])
  {
    hide TagVerifies, FlushCount, EncryptsFit, DecryptsFit;
    var ops := v.decryptBuffer[..FlushCount(v, isDecrypting)];
    assert ops[j] == v.decryptBuffer[j] && ops != [];
    assert TagVerifies(k.server, ops[j]);
  }

  lemma VerifiedIsAuthentic(k: Gctr.Key, i: nat, p: DecPush)
    requires TagVerifies(k, DecOpAt(i, p))
    ensures Authenticated(k, i, p)
  {
  }

  lemma FlushAuthentic(k: Keys, v0: View, s: Session, isDecrypting: bool)
    requires Receives(k.server, v0, s) && Authentic(k.server, s) && CanStep(k, s, Flush(isDecrypting))
    ensures Authentic(k.server, Step(k, s, Flush(isDecrypting)))
  {
    hide Receives, CanStep, Step, Authenticated, TagVerifies, FlushCount, DecOpAt, CanFlush;
    var t := Step(k, s, Flush(isDecrypting));
    var m := |s.v.phase.recvRecords|;
    FlushReceives(k, s, isDecrypting);
    PadLeft(k.server, v0, s);
    forall i | 0 <= i < |t.v.phase.recvRecords|
      ensures Authenticated(k.server, i, s.decs[i])
    {
      if i >= m {
        StepFlushes(k, s, isDecrypting);
        FlushVerifies(k, s.v, isDecrypting, i - m);
        PendingDecryptAt(k.server, v0, s, i - m);
        VerifiedIsAuthentic(k.server, i, s.decs[i]);
      }
    }
  }

  lemma StepFlushes(k: Keys, s: Session, isDecrypting: bool)
    requires CanStep(k, s, Flush(isDecrypting))
    ensures CanFlush(k, s.v, isDecrypting)
  {
  }

  lemma AuthenticKept(k: Keys, v0: View, s: Session, e: Event)
    requires Inv(k, v0, s) && Authentic(k.server, s) && CanStep(k, s, e)
    ensures Authentic(k.server, Step(k, s, e))
  {
    hide Within, Sends, Receives, Held, Authenticated, CanFlush, Flushed, InputsOf, EncOpAt;
    match e
    case Flush(isDecrypting) => FlushAuthentic(k, v0, s, isDecrypting);
    case _ =>
  }

  lemma {:induction false} RunAuthentic(k: Keys, v0: View, s: Session, events: seq<Event>)
    requires Inv(k, v0, s) && Authentic(k.server, s) && Run(k, s, events).Some?
    ensures Authentic(k.server, Run(k, s, events).value)
    decreases |events|
  {
    hide Inv, CanStep, Step, Authentic;
    if events != [] {
      StepKeepsInv(k, v0, s, events[0]);
      AuthenticKept(k, v0, s, events[0]);
      RunAuthentic(k, v0, Step(k, s, events[0]), events[1..]);
    }
  }

  /** On every run, a record is processed only if its tag is the one of its own number, type, version, nonce and ciphertext. */
  lemma ProcessedIsAuthenticated(k: Keys, v0: View, events: seq<Event>, i: nat)
    requires Fresh(v0) && Run(k, Begin(v0), events).Some?
    ensures var t := Run(k, Begin(v0), events).value;
      && t.v.phase.Online? && |t.v.phase.recvRecords| <= |DecPushes(events)|
      && (i < |t.v.phase.recvRecords| ==>
            var p := DecPushes(events)[i];
            |p.nonce| == 8 && p.tag == Gctr.Tag(k.server, p.nonce, Aad(i, p.typ, p.version, |p.ciphertext|), p.ciphertext))
  {
    hide Run, Within, Sends, Receives, Held, Aad, Gctr.Tag;
    BeginInv(k, v0);
    HistoryOfRun(k, Begin(v0), events);
    assert Run(k, Begin(v0), events).value.decs == DecPushes(events);
    RunAuthentic(k, v0, Begin(v0), events);
  }

  lemma CommitVerifies(k: Keys, v: View, j: nat)
    requires CanCommit(k, v) && j < |v.decryptBuffer|
    ensures TagVerifies(k.server, v.decryptBuffer[j])
  {
    hide TagVerifies;
  }

  /** Records still pending at a commit are verified there. */
  lemma PendingAuthenticated(k: Keys, v0: View, s: Session, i: nat)
    requires Receives(k.server, v0, s) && CanCommit(k, s.v) && s.v.phase.Online? && |s.v.phase.recvRecords| <= i < |s.decs|
    ensures Authenticated(k.server, i, s.decs[i])
  {
    hide Receives, CanCommit, Authenticated, TagVerifies, DecOpAt;
    PadLeft(k.server, v0, s);
    var j := i - |s.v.phase.recvRecords|;
    PendingDecryptAt(k.server, v0, s, j);
    CommitVerifies(k, s.v, j);
    VerifiedIsAuthentic(k.server, i, s.decs[i]);
  }

  /** All of them are, in a state that can commit. */
  lemma AllAuthenticated(k: Keys, v0: View, s: Session, i: nat)
    requires Inv(k, v0, s) && Authentic(k.server, s) && CanCommit(k, s.v) && i < |s.decs|
    ensures Authenticated(k.server, i, s.decs[i])
  {
    hide Within, Sends, Receives, Held, CanCommit, Authenticated;
    if i >= |s.v.phase.recvRecords| {
      PendingAuthenticated(k, v0, s, i);
    }
  }

  /** A run commits only if every record pushed carries its right tag. */
  lemma CommittedIsAuthenticated(k: Keys, v0: View, events: seq<Event>, i: nat)
    requires Fresh(v0) && Run(k, Begin(v0), events).Some? && CanCommit(k, Run(k, Begin(v0), events).value.v)
    requires i < |DecPushes(events)|
    ensures var p := DecPushes(events)[i];
      |p.nonce| == 8 && p.tag == Gctr.Tag(k.server, p.nonce, Aad(i, p.typ, p.version, |p.ciphertext|), p.ciphertext)
  {
    hide Run, Inv, Authentic, CanCommit, Aad, Gctr.Tag, DecPushes, EncPushes, Fresh;
    BeginInv(k, v0);
    BeginAuthentic(k, v0);
    HistoryOfRun(k, Begin(v0), events);
    RunKeepsInv(k, v0, Begin(v0), events);
    RunAuthentic(k, v0, Begin(v0), events);
    var t := Run(k, Begin(v0), events).value;
    assert t.decs == DecPushes(events);
    AllAuthenticated(k, v0, t, i);
  }

  lemma BeginAuthentic(k: Keys, v0: View)
    requires Fresh(v0)
    ensures Authentic(k.server, Begin(v0))
  {
  }
}
