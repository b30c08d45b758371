/**
 * The follower's view of the leader's record layer: private plaintexts, tags and the pad are
 * erased. Every operation of the record layer commutes with this erasure.
 */
module Erasure {
  import opened Bytes
  import opened Parties
  import opened RecordTypes
  import opened RecordLayerSpec
  import opened ProtocolSpec
  import Gctr

  function Mapped<A, B>(f: A -> B, s: seq<A>): (r: seq<B>)
    ensures |r| == |s| && forall i :: 0 <= i < |s| ==> r[i] == f(s[i])
  {
    seq(|s|, i requires 0 <= i < |s| => f(s[i]))
  }

  lemma MappedConcat<A, B>(f: A -> B, s: seq<A>, t: seq<A>)
    ensures Mapped(f, s + t) == Mapped(f, s) + Mapped(f, t)
  {
  }

  function EraseOp(op: EncryptOp): EncryptOp {
    if op.mode.Private? then op.(plaintext := None) else op
  }

  function EraseRecord(r: Record): Record {
    if r.typ == ApplicationData then r.(plaintext := None) else r
  }

  function EraseEncrypted(r: EncryptedRecord): EncryptedRecord {
    r.(tag := None)
  }

  function ErasePlain(r: PlainRecord): PlainRecord {
    if r.typ == ApplicationData then r.(plaintext := None) else r
  }

  function EraseTranscript(t: TlsTranscript): TlsTranscript {
    TlsTranscript(Mapped(EraseRecord, t.sent), Mapped(EraseRecord, t.recv))
  }

  function ErasePhase(p: Phase): Phase {
    match p
    case Online(_, sent, recv) => Online(None, Mapped(EraseRecord, sent), Mapped(EraseRecord, recv))
    case _ => p
  }

  /** `ready`: whether the follower has processed the server key, which sets its AEADs up. */
  function EraseAead(a: Aead, ready: bool): Aead {
    a.(phase := if ready then Ready else Awaiting)
  }

  /** The follower emits nothing, so its output queues also hold what the leader has popped. */
  function EraseView(v: View, poppedEnc: seq<EncryptedRecord>, poppedDec: seq<PlainRecord>, ready: bool): View {
    View(Follower, v.writeSeq, v.readSeq, EraseAead(v.enc, ready), EraseAead(v.dec, ready), ErasePhase(v.phase), v.started,
         v.sent, v.recvOnline, v.recv, v.maxSent, v.maxRecvOnline, v.maxRecv,
         Mapped(EraseOp, v.encryptBuffer), v.decryptBuffer,
         Mapped(EraseEncrypted, poppedEnc + v.encryptedBuffer), Mapped(ErasePlain, poppedDec + v.decryptedBuffer))
  }

  predicate EncModed(op: EncryptOp) {
    op.mode == ModeOf(op.typ) && op.plaintext.Some?
  }

  predicate DecModed(op: DecryptOp) {
    op.mode == ModeOf(op.typ)
  }

  /** How the leader drives its layer: exactly application data is private, and it knows its plaintexts. */
  predicate WellModed(v: View) {
    && v.role.Leader?
    && (forall i :: 0 <= i < |v.encryptBuffer| ==> EncModed(v.encryptBuffer[i]))
    && (forall i :: 0 <= i < |v.decryptBuffer| ==> DecModed(v.decryptBuffer[i]))
  }

  // ---- Pushes ----

  lemma ErasePushEncrypt(v: View, pe: seq<EncryptedRecord>, pd: seq<PlainRecord>, ready: bool,
                         typ: ContentType, version: nat, plaintext: seq<byte>)
    requires CanPushEncrypt(v, |plaintext|, Some(plaintext), ModeOf(typ))
    ensures var shown := if ModeOf(typ).Private? then None else Some(plaintext);
      var f := EraseView(v, pe, pd, ready);
      && CanPushEncrypt(f, |plaintext|, shown, ModeOf(typ))
      && PushedEncrypt(f, typ, version, |plaintext|, shown, ModeOf(typ))
         == EraseView(PushedEncrypt(v, typ, version, |plaintext|, Some(plaintext), ModeOf(typ)), pe, pd, ready)
  {
    hide Aad, Be;
    var op := EncryptOp(v.writeSeq, typ, version, |plaintext|, Some(plaintext), Be(v.writeSeq, 8),
                        Aad(v.writeSeq, typ, version, |plaintext|), ModeOf(typ));
    MappedConcat(EraseOp, v.encryptBuffer, [op]);
    assert Mapped(EraseOp, [op]) == [EraseOp(op)];
  }

  // ---- Flush ----

  lemma EraseFits(ops: seq<EncryptOp>, a: Aead)
    requires EncryptsFit(a, ops)
    ensures EncryptsFit(EraseAead(a, true), Mapped(EraseOp, ops))
    ensures EncLens(Mapped(EraseOp, ops)) == EncLens(ops)
  {
    hide PaddedTo, GhashFits;
    var erased := Mapped(EraseOp, ops);
    forall i | 0 <= i < |erased|
      ensures Encryptable(erased[i]) && GhashFits(|erased[i].aad|, erased[i].len)
    {
      assert Encryptable(ops[i]) && GhashFits(|ops[i].aad|, ops[i].len);
    }
    assert EncLens(erased) == EncLens(ops);
  }

  lemma EraseInputs(ops: seq<EncryptOp>, inputs: seq<seq<byte>>)
    requires InputsOf(ops, inputs)
    ensures InputsOf(Mapped(EraseOp, ops), inputs)
  {
  }

  lemma EraseSent(k: Gctr.Key, a: Aead, ops: seq<EncryptOp>, inputs: seq<seq<byte>>)
    requires |inputs| == |ops| && SumPadded(EncLens(ops)) <= a.left
    requires forall i :: 0 <= i < |ops| ==> EncModed(ops[i])
    ensures EncLens(Mapped(EraseOp, ops)) == EncLens(ops)
    ensures SentAll(k, EraseAead(a, true), Mapped(EraseOp, ops), inputs) == Mapped(EraseRecord, SentAll(k, a, ops, inputs))
    ensures EncryptedAll(k, Follower, Mapped(EraseOp, ops), inputs) == Mapped(EraseEncrypted, EncryptedAll(k, Leader, ops, inputs))
  {
    hide PaddedTo, Gctr.Apply, Gctr.Tag;
    var erased := Mapped(EraseOp, ops);
    assert EncLens(erased) == EncLens(ops);
    forall i | 0 <= i < |ops|
      ensures SentAll(k, EraseAead(a, true), erased, inputs)[i] == EraseRecord(SentAll(k, a, ops, inputs)[i])
    {
      assert EncModed(ops[i]);
      PaddedToMonotone(EncLens(ops), i + 1, |ops|);
    }
  }

  lemma EraseReceived(k: Gctr.Key, ops: seq<DecryptOp>)
    requires forall i :: 0 <= i < |ops| ==> DecModed(ops[i])
    ensures PlainAll(k, Follower, ops) == Mapped(ErasePlain, PlainAll(k, Leader, ops))
    ensures RecvAll(k, Follower, ops) == Mapped(EraseRecord, RecvAll(k, Leader, ops))
  {
    hide Gctr.Apply;
    forall i | 0 <= i < |ops|
      ensures PlainRecordOf(k, Follower, ops[i]) == ErasePlain(PlainRecordOf(k, Leader, ops[i]))
      ensures RecvRecordOf(k, Follower, ops[i]) == EraseRecord(RecvRecordOf(k, Leader, ops[i]))
    {
      assert DecModed(ops[i]);
    }
  }

  lemma EraseCanFlush(k: Keys, v: View, pe: seq<EncryptedRecord>, pd: seq<PlainRecord>, isDecrypting: bool)
    requires CanFlush(k, v, isDecrypting)
    ensures CanFlush(k, EraseView(v, pe, pd, true), isDecrypting)
  {
    hide EncryptsFit, TagVerifies, Decryptable, PaddedTo, SumTo, FirstApplicationData;
    var ops := v.decryptBuffer[..FlushCount(v, isDecrypting)];
    if v.encryptBuffer != [] || ops != [] {
      EraseFits(v.encryptBuffer, v.enc);
    }
  }

  lemma EraseFlush(k: Keys, v: View, pe: seq<EncryptedRecord>, pd: seq<PlainRecord>, isDecrypting: bool, inputs: seq<seq<byte>>)
    requires WellModed(v) && CanFlush(k, v, isDecrypting) && InputsOf(v.encryptBuffer, inputs)
    ensures var f := EraseView(v, pe, pd, true);
      && CanFlush(k, f, isDecrypting) && InputsOf(f.encryptBuffer, inputs)
      && Flushed(k, f, isDecrypting, inputs) == EraseView(Flushed(k, v, isDecrypting, inputs), pe, pd, true)
  {
    hide EncryptsFit, DecryptsFit, TagsVerify, SentAll, EncryptedAll, PlainAll, RecvAll, SumPadded, Sum, EncLens, DecLens,
         PrivateLens, FirstApplicationData, EncModed, DecModed;
    var f := EraseView(v, pe, pd, true);
    var n := FlushCount(v, isDecrypting);
    var ops := v.decryptBuffer[..n];
    EraseCanFlush(k, v, pe, pd, isDecrypting);
    EraseInputs(v.encryptBuffer, inputs);
    if v.encryptBuffer != [] || ops != [] {
      FitsText(v.enc, v.encryptBuffer);
      EraseSent(k.client, v.enc, v.encryptBuffer, inputs);
      EraseReceived(k.server, ops);
      EraseQueues(v, pe, pd, EncryptedAll(k.client, Leader, v.encryptBuffer, inputs), PlainAll(k.server, Leader, ops));
      MappedConcat(EraseRecord, v.phase.sentRecords, SentAll(k.client, v.enc, v.encryptBuffer, inputs));
      MappedConcat(EraseRecord, v.phase.recvRecords, RecvAll(k.server, Leader, ops));
    }
  }

  lemma FitsText(a: Aead, ops: seq<EncryptOp>)
    requires EncryptsFit(a, ops)
    ensures SumPadded(EncLens(ops)) <= a.left && a.phase.Ready?
  {
  }

  /** New outputs go behind what is queued, and so behind what was popped. */
  lemma EraseQueues(v: View, pe: seq<EncryptedRecord>, pd: seq<PlainRecord>, enc: seq<EncryptedRecord>, dec: seq<PlainRecord>)
    ensures Mapped(EraseEncrypted, pe + v.encryptedBuffer) + Mapped(EraseEncrypted, enc) == Mapped(EraseEncrypted, pe + (v.encryptedBuffer + enc))
    ensures Mapped(ErasePlain, pd + v.decryptedBuffer) + Mapped(ErasePlain, dec) == Mapped(ErasePlain, pd + (v.decryptedBuffer + dec))
  {
    assert pe + (v.encryptedBuffer + enc) == pe + v.encryptedBuffer + enc;
    assert pd + (v.decryptedBuffer + dec) == pd + v.decryptedBuffer + dec;
  }

  // ---- Pops and commit ----

  lemma ErasePop(v: View, pe: seq<EncryptedRecord>, pd: seq<PlainRecord>, ready: bool)
    ensures v.encryptedBuffer != [] ==>
      EraseView(v.(encryptedBuffer := v.encryptedBuffer[1..]), pe + [v.encryptedBuffer[0]], pd, ready) == EraseView(v, pe, pd, ready)
    ensures v.decryptedBuffer != [] ==>
      EraseView(v.(decryptedBuffer := v.decryptedBuffer[1..]), pe, pd + [v.decryptedBuffer[0]], ready) == EraseView(v, pe, pd, ready)
  {
    if v.encryptedBuffer != [] {
      assert pe + [v.encryptedBuffer[0]] + v.encryptedBuffer[1..] == pe + v.encryptedBuffer;
    }
    if v.decryptedBuffer != [] {
      assert pd + [v.decryptedBuffer[0]] + v.decryptedBuffer[1..] == pd + v.decryptedBuffer;
    }
  }

  lemma EraseCommit(k: Keys, v: View, pe: seq<EncryptedRecord>, pd: seq<PlainRecord>)
    requires WellModed(v) && CanCommit(k, v)
    ensures var f := EraseView(v, pe, pd, true);
      && CanCommit(k, f)
      && Committed(k, f) == EraseView(Committed(k, v), pe, pd, true)
      && TranscriptOf(k, f) == EraseTranscript(TranscriptOf(k, v))
  {
    hide TagVerifies, Decryptable, PaddedTo, PlainAll, RecvAll, EncModed, DecModed, PublicLens;
    EraseReceived(k.server, v.decryptBuffer);
    EraseQueues(v, pe, pd, [], PlainAll(k.server, Leader, v.decryptBuffer));
    MappedConcat(EraseRecord, v.phase.recvRecords, RecvAll(k.server, Leader, v.decryptBuffer));
  }
}
