/** What the invariant of `RecordLayerRuns` says about every run from an allocation to a commit. */
module RecordLayerTheorems {
  import opened Bytes
  import opened Parties
  import opened RecordTypes
  import opened RecordLayerSpec
  import opened RecordLayerRuns
  import Gctr

  // ---- The pushes a schedule makes ----

  function EncPushes(events: seq<Event>): seq<EncPush> {
    if events == [] then []
    else (if events[0].PushEncrypt? then [events[0].enc] else []) + EncPushes(events[1..])
  }

  function DecPushes(events: seq<Event>): seq<DecPush> {
    if events == [] then []
    else (if events[0].PushDecrypt? then [events[0].dec] else []) + DecPushes(events[1..])
  }

  lemma HistoryOfStep(k: Keys, s: Session, e: Event)
    requires CanStep(k, s, e)
    ensures Step(k, s, e).encs == s.encs + if e.PushEncrypt? then [e.enc] else []
    ensures Step(k, s, e).decs == s.decs + if e.PushDecrypt? then [e.dec] else []
  {
    hide CanFlush, Flushed;
  }

  lemma {:induction false} HistoryOfRun(k: Keys, s: Session, events: seq<Event>)
    requires Run(k, s, events).Some?
    ensures Run(k, s, events).value.encs == s.encs + EncPushes(events)
    ensures Run(k, s, events).value.decs == s.decs + DecPushes(events)
    decreases |events|
  {
    hide CanStep, Step;
    if events != [] {
      var e, rest := events[0], events[1..];
      var t := Step(k, s, e);
      HistoryOfStep(k, s, e);
      HistoryOfRun(k, t, rest);
      assert t.encs + EncPushes(rest) == s.encs + EncPushes(events);
      assert t.decs + DecPushes(rest) == s.decs + DecPushes(events);
    }
  }

  // ---- Safety ----

  /** Records already processed, then operations still pending, are numbered 0, 1, 2, ... */
  predicate Numbered(v: View) {
    v.phase.Online? &&
    var n, m := |v.phase.sentRecords|, |v.phase.recvRecords|;
    && v.writeSeq == n + |v.encryptBuffer| && v.readSeq == m + |v.decryptBuffer|
    && (forall i :: 0 <= i < n ==> v.phase.sentRecords[i].seqNo == i)
    && (forall i :: 0 <= i < |v.encryptBuffer| ==> v.encryptBuffer[i].seqNo == n + i)
    && (forall i :: 0 <= i < m ==> v.phase.recvRecords[i].seqNo == i)
    && (forall i :: 0 <= i < |v.decryptBuffer| ==> v.decryptBuffer[i].seqNo == m + i)
  }

  predicate SafeWithin(v0: View, s: Session) {
    && s.v.sent <= v0.maxSent && s.v.recv <= v0.maxRecv && s.v.recvOnline <= v0.maxRecvOnline
    && |s.v.encryptBuffer| <= MAX_BUFFER_SIZE && |s.v.decryptBuffer| <= MAX_BUFFER_SIZE
    && Numbered(s.v)
    && Held(s)
  }

  lemma SafeByInv(k: Keys, v0: View, t: Session)
    requires Inv(k, v0, t)
    ensures SafeWithin(v0, t)
  {
    hide Gctr.Apply, Gctr.Tag, PaddedTo, SumTo, Aad, Be, Remaining;
    var n, m := |t.v.phase.sentRecords|, |t.v.phase.recvRecords|;
    forall i | 0 <= i < |t.v.encryptBuffer|
      ensures t.v.encryptBuffer[i].seqNo == n + i
    {
      assert t.v.encryptBuffer[(n + i) - n] == EncOpAt(n + i, t.encs[n + i]);
    }
    forall i | 0 <= i < |t.v.decryptBuffer|
      ensures t.v.decryptBuffer[i].seqNo == m + i
    {
      assert t.v.decryptBuffer[(m + i) - m] == DecOpAt(m + i, t.decs[m + i]);
    }
  }

  /** On every run: quotas, buffer limits, numbering, and no application data released early. */
  lemma RunIsSafe(k: Keys, v0: View, events: seq<Event>)
    requires Fresh(v0) && Run(k, Begin(v0), events).Some?
    ensures SafeWithin(v0, Run(k, Begin(v0), events).value)
  {
    hide Inv, SafeWithin, Run;
    BeginInv(k, v0);
    RunKeepsInv(k, v0, Begin(v0), events);
    SafeByInv(k, v0, Run(k, Begin(v0), events).value);
  }

  /** What has been popped is a prefix of what the pushes determine, in push order. */
  lemma PoppedIsPrefix(k: Keys, v0: View, events: seq<Event>)
    requires Fresh(v0) && Run(k, Begin(v0), events).Some?
    ensures var t := Run(k, Begin(v0), events).value;
      && |t.poppedEnc| <= |EncPushes(events)| && |t.poppedDec| <= |DecPushes(events)|
      && (forall i :: 0 <= i < |t.poppedEnc| ==> t.poppedEnc[i] == EncryptedAt(k.client, v0.role, i, EncPushes(events)[i]))
      && (forall i :: 0 <= i < |t.poppedDec| ==> t.poppedDec[i] == PlainAt(k.server, v0.role, i, DecPushes(events)[i]))
  {
    hide EncryptedAt, PlainAt, PaddedTo, SumTo, Remaining, SentAt, RecvAt, Run;
    BeginInv(k, v0);
    RunKeepsInv(k, v0, Begin(v0), events);
    HistoryOfRun(k, Begin(v0), events);
    var t := Run(k, Begin(v0), events).value;
    assert t.encs == EncPushes(events) && t.decs == DecPushes(events);
    forall i | 0 <= i < |t.poppedEnc|
      ensures t.poppedEnc[i] == EncryptedAt(k.client, v0.role, i, EncPushes(events)[i])
    {
      assert (t.poppedEnc + t.v.encryptedBuffer)[i] == t.poppedEnc[i];
    }
    forall i | 0 <= i < |t.poppedDec|
      ensures t.poppedDec[i] == PlainAt(k.server, v0.role, i, DecPushes(events)[i])
    {
      assert (t.poppedDec + t.v.decryptedBuffer)[i] == t.poppedDec[i];
    }
  }

  /** In every reachable state a flush can be attempted: the VM's inputs match the pending operations. */
  lemma InputsAlwaysMatch(k: Keys, v0: View, s: Session)
    requires Inv(k, v0, s)
    ensures |s.v.encryptBuffer| <= |s.encs| && InputsOf(s.v.encryptBuffer, PendingInputs(s))
  {
    hide Gctr.Apply, Gctr.Tag, PaddedTo, SumTo, Aad, Be, Remaining, SentAt, Receives, Within;
    var n := |s.v.phase.sentRecords|;
    forall i | 0 <= i < |s.v.encryptBuffer|
      ensures |PendingInputs(s)[i]| == s.v.encryptBuffer[i].len
      ensures s.v.encryptBuffer[i].plaintext.Some? ==> s.v.encryptBuffer[i].plaintext.value == PendingInputs(s)[i]
    {
      assert s.v.encryptBuffer[(n + i) - n] == EncOpAt(n + i, s.encs[n + i]);
    }
  }

  // ---- Commit: the transcript is a function of the pushes ----

  predicate SentTranscript(k: Gctr.Key, a0: Aead, encs: seq<EncPush>, records: seq<Record>) {
    && |records| == |encs|
    && forall i :: 0 <= i < |encs| ==> SentAt(k, a0, PushLens(encs), i, encs[i], records[i])
  }

  function RecvTranscript(k: Gctr.Key, role: Role, decs: seq<DecPush>): (r: seq<Record>)
    ensures |r| == |decs|
  {
    seq(|decs|, i requires 0 <= i < |decs| => RecvAt(k, role, i, decs[i]))
  }

  function PlainOutputs(k: Gctr.Key, role: Role, decs: seq<DecPush>): (r: seq<PlainRecord>)
    ensures |r| == |decs|
  {
    seq(|decs|, i requires 0 <= i < |decs| => PlainAt(k, role, i, decs[i]))
  }

  function EncryptedOutputs(k: Gctr.Key, role: Role, encs: seq<EncPush>): (r: seq<EncryptedRecord>)
    ensures |r| == |encs|
  {
    seq(|encs|, i requires 0 <= i < |encs| => EncryptedAt(k, role, i, encs[i]))
  }

  lemma CommitFrom(k: Keys, v0: View, s: Session)
    requires Inv(k, v0, s) && CanCommit(k, s.v)
    ensures SentTranscript(k.client, v0.enc, s.encs, TranscriptOf(k, s.v).sent)
    ensures TranscriptOf(k, s.v).recv == RecvTranscript(k.server, s.v.role, s.decs)
    ensures s.poppedEnc + Committed(k, s.v).encryptedBuffer == EncryptedOutputs(k.client, s.v.role, s.encs)
    ensures s.poppedDec + Committed(k, s.v).decryptedBuffer == PlainOutputs(k.server, s.v.role, s.decs)
  {
    hide Gctr.Apply, Gctr.Tag, PaddedTo, SumTo, Aad, Be, Remaining, SentAt, Within, Held, TagsVerify, Decryptable, PublicLens;
    var m := |s.v.phase.recvRecords|;
    var recv, plain := TranscriptOf(k, s.v).recv, s.poppedDec + Committed(k, s.v).decryptedBuffer;
    forall i | 0 <= i < |s.decs|
      ensures recv[i] == RecvAt(k.server, s.v.role, i, s.decs[i])
      ensures plain[i] == PlainAt(k.server, s.v.role, i, s.decs[i])
    {
      if i >= m {
        assert s.v.decryptBuffer[i - m] == DecOpAt(i, s.decs[i]);
      } else {
        assert plain[i] == (s.poppedDec + s.v.decryptedBuffer)[i];
      }
    }
  }

  /**
   * The committed transcript has exactly one record per push, in push order, and each is
   * determined by its own push: when it was flushed, and whether it was decrypted in MPC
   * or locally at commit, leaves no trace.
   */
  lemma TranscriptFollowsPushes(k: Keys, v0: View, events: seq<Event>)
    requires Fresh(v0) && Run(k, Begin(v0), events).Some?
    requires CanCommit(k, Run(k, Begin(v0), events).value.v)
    ensures var t := Run(k, Begin(v0), events).value;
      && SentTranscript(k.client, v0.enc, EncPushes(events), TranscriptOf(k, t.v).sent)
      && TranscriptOf(k, t.v).recv == RecvTranscript(k.server, v0.role, DecPushes(events))
      && t.poppedEnc + Committed(k, t.v).encryptedBuffer == EncryptedOutputs(k.client, v0.role, EncPushes(events))
      && t.poppedDec + Committed(k, t.v).decryptedBuffer == PlainOutputs(k.server, v0.role, DecPushes(events))
  {
    hide CanStep, Step, CanCommit, Committed, TranscriptOf, SentTranscript, RecvTranscript, Run, Sends, Receives, Held;
    BeginInv(k, v0);
    RunKeepsInv(k, v0, Begin(v0), events);
    HistoryOfRun(k, Begin(v0), events);
    var t := Run(k, Begin(v0), events).value;
    assert t.encs == EncPushes(events) && t.decs == DecPushes(events);
    CommitFrom(k, v0, t);
  }

  lemma SentUnique(k: Gctr.Key, a0: Aead, encs: seq<EncPush>, x: seq<Record>, y: seq<Record>)
    requires SentTranscript(k, a0, encs, x) && SentTranscript(k, a0, encs, y)
    ensures x == y
  {
    hide SentAt;
    forall i | 0 <= i < |encs|
      ensures x[i] == y[i]
    {
      assert SentAt(k, a0, PushLens(encs), i, encs[i], x[i]) && SentAt(k, a0, PushLens(encs), i, encs[i], y[i]);
      SentOnce(k, a0, PushLens(encs), i, encs[i], x[i], y[i]);
    }
  }

  lemma SentOnce(k: Gctr.Key, a0: Aead, lens: seq<nat>, i: nat, p: EncPush, x: Record, y: Record)
    requires SentAt(k, a0, lens, i, p, x) && SentAt(k, a0, lens, i, p, y)
    ensures x == y
  {
  }

  /** Schedule independence: only the pushes matter. */
  lemma ScheduleIndependence(k: Keys, v0: View, one: seq<Event>, other: seq<Event>)
    requires Fresh(v0) && Run(k, Begin(v0), one).Some? && Run(k, Begin(v0), other).Some?
    requires CanCommit(k, Run(k, Begin(v0), one).value.v) && CanCommit(k, Run(k, Begin(v0), other).value.v)
    requires EncPushes(one) == EncPushes(other) && DecPushes(one) == DecPushes(other)
    ensures var s, t := Run(k, Begin(v0), one).value, Run(k, Begin(v0), other).value;
      && TranscriptOf(k, s.v) == TranscriptOf(k, t.v)
      && s.poppedEnc + Committed(k, s.v).encryptedBuffer == t.poppedEnc + Committed(k, t.v).encryptedBuffer
      && s.poppedDec + Committed(k, s.v).decryptedBuffer == t.poppedDec + Committed(k, t.v).decryptedBuffer
  {
    hide CanCommit, Committed, TranscriptOf, SentTranscript, RecvTranscript, Run;
    TranscriptFollowsPushes(k, v0, one);
    TranscriptFollowsPushes(k, v0, other);
    var s, t := Run(k, Begin(v0), one).value, Run(k, Begin(v0), other).value;
    SentUnique(k.client, v0.enc, EncPushes(one), TranscriptOf(k, s.v).sent, TranscriptOf(k, t.v).sent);
  }

  /** What the leader's received transcript says: number, type and the GCTR plaintext of each ciphertext pushed. */
  lemma LeaderLearnsPlaintext(k: Keys, v0: View, events: seq<Event>, i: nat)
    requires Fresh(v0) && v0.role.Leader? && Run(k, Begin(v0), events).Some?
    requires CanCommit(k, Run(k, Begin(v0), events).value.v) && i < |DecPushes(events)|
    ensures var recv, p := TranscriptOf(k, Run(k, Begin(v0), events).value.v).recv, DecPushes(events)[i];
      && |recv| == |DecPushes(events)|
      && recv[i] == Record(i, p.typ, Some(Gctr.Apply(k.server, p.nonce, p.ciphertext)), None, p.nonce, p.ciphertext)
  {
    hide CanCommit, Committed, TranscriptOf, SentTranscript, Run, Gctr.Apply;
    TranscriptFollowsPushes(k, v0, events);
  }

  // ---- Text references and the one-time pad ----

  /** No two records are given overlapping text, and all of it lies in the allocation. */
  lemma TextsDisjoint(k: Gctr.Key, a0: Aead, encs: seq<EncPush>, records: seq<Record>, i: nat, j: nat)
    requires SentTranscript(k, a0, encs, records) && i < j < |records|
    requires encs[i].mode.Private? && encs[j].mode.Private?
    ensures records[i].plaintextRef.Some? && records[j].plaintextRef.Some?
    ensures var x, y := records[i].plaintextRef.value, records[j].plaintextRef.value;
      && a0.base <= y.ptr && y.ptr + y.len <= x.ptr && x.ptr + x.len <= a0.base + a0.left
      && x.len == encs[i].len && y.len == encs[j].len
  {
    hide Gctr.Apply, Gctr.Tag, PaddedTo, Aad, Be;
    var lens := PushLens(encs);
    PaddedToStep(lens, i);
    PaddedToStep(lens, j);
    assert SentAt(k, a0, lens, i, encs[i], records[i]) && SentAt(k, a0, lens, j, encs[j], records[j]);
    PaddedToMonotone(lens, i + 1, j);
  }

  /** The way the leader uses the layer: exactly the application data is private. */
  predicate PrivateIsApplicationData(decs: seq<DecPush>) {
    forall i :: 0 <= i < |decs| ==> (decs[i].mode.Private? <==> decs[i].typ == ApplicationData)
  }

  function PrivatelyDecrypted(s: Session): nat
    requires s.v.phase.Online? && |s.v.phase.recvRecords| <= |s.decs|
  {
    SumTo(RecvPrivateLens(s.decs), |s.v.phase.recvRecords|)
  }

  /** Everything privately decrypted in MPC was charged to the online quota. */
  predicate Charged(s: Session) {
    s.v.phase.Online? && |s.v.phase.recvRecords| <= |s.decs| && PrivatelyDecrypted(s) <= s.v.recvOnline
  }

  lemma {:induction false} PrivateAtMostAll(ops: seq<DecryptOp>, n: nat)
    requires n <= |ops|
    ensures SumTo(PrivateLens(ops), n) <= SumTo(DecLens(ops), n)
    ensures (forall i :: 0 <= i < n ==> ops[i].mode.Public?) ==> SumTo(PrivateLens(ops), n) == 0
    decreases n
  {
    if n > 0 {
      PrivateAtMostAll(ops, n - 1);
    }
  }

  /** Pending operations taken by a flush that does not decrypt are all public under this usage. */
  lemma UndecryptedArePublic(k: Gctr.Key, v0: View, s: Session)
    requires Receives(k, v0, s) && PrivateIsApplicationData(s.decs)
    ensures forall i :: 0 <= i < FirstApplicationData(s.v.decryptBuffer) ==> s.v.decryptBuffer[i].mode.Public?
  {
    hide Gctr.Apply, PaddedTo, SumTo, Aad, Be, Remaining, PlainAt, RecvAt;
    var m := |s.v.phase.recvRecords|;
    forall i | 0 <= i < FirstApplicationData(s.v.decryptBuffer)
      ensures s.v.decryptBuffer[i].mode.Public?
    {
      assert s.v.decryptBuffer[(m + i) - m] == DecOpAt(m + i, s.decs[m + i]);
    }
  }

  lemma ChargedFlush(k: Keys, v0: View, s: Session, isDecrypting: bool)
    requires Receives(k.server, v0, s) && Charged(s) && PrivateIsApplicationData(s.decs)
    requires CanStep(k, s, Flush(isDecrypting))
    ensures Charged(Step(k, s, Flush(isDecrypting)))
  {
    hide Gctr.Apply, Gctr.Tag, PaddedTo, SumTo, Aad, Be, Remaining, PlainAt, RecvAt, EncryptsFit, DecryptsFit, TagsVerify,
         SentAll, EncryptedAll, PlainAll, DecLens, PrivateLens, RecvLens, RecvPrivateLens, FirstApplicationData;
    var c := FlushCount(s.v, isDecrypting);
    var ops := s.v.decryptBuffer[..c];
    BatchLens(k.server, v0, s, c);
    PrivateAtMostAll(ops, |ops|);
    if !isDecrypting {
      UndecryptedArePublic(k.server, v0, s);
    }
  }

  lemma ChargedKept(k: Keys, v0: View, s: Session, e: Event)
    requires Inv(k, v0, s) && Charged(s) && CanStep(k, s, e)
    requires PrivateIsApplicationData(Step(k, s, e).decs)
    ensures Charged(Step(k, s, e))
  {
    hide Gctr.Apply, Gctr.Tag, PaddedTo, SumTo, Aad, Be, Remaining, PlainAt, RecvAt, CanFlush, Flushed, Within, Sends, Held, InputsOf, RecvPrivateLens;
    match e
    case PushDecrypt(p) => RecvLensGrow(s.decs, p);
    case Flush(isDecrypting) =>
      FlushReceives(k, s, isDecrypting);
      ChargedFlush(k, v0, s, isDecrypting);
    case _ =>
  }

  lemma UsageOfPrefix(decs: seq<DecPush>, more: seq<DecPush>)
    requires PrivateIsApplicationData(decs + more)
    ensures PrivateIsApplicationData(decs)
  {
    forall i | 0 <= i < |decs|
      ensures decs[i].mode.Private? <==> decs[i].typ == ApplicationData
    {
      assert (decs + more)[i] == decs[i];
    }
  }

  lemma {:induction false} RunIsCharged(k: Keys, v0: View, s: Session, events: seq<Event>)
    requires Inv(k, v0, s) && Charged(s) && Run(k, s, events).Some?
    requires PrivateIsApplicationData(Run(k, s, events).value.decs)
    ensures Charged(Run(k, s, events).value)
    decreases |events|
  {
    hide Inv, CanStep, Step, Charged, PrivateIsApplicationData;
    if events != [] {
      var t := Step(k, s, events[0]);
      StepKeepsInv(k, v0, s, events[0]);
      HistoryOfRun(k, t, events[1..]);
      UsageOfPrefix(t.decs, DecPushes(events[1..]));
      ChargedKept(k, v0, s, events[0]);
      RunIsCharged(k, v0, t, events[1..]);
    }
  }

  /**
   * The pad left plus what was privately decrypted is the original pad, the pad left covers
   * all of the online quota that is left, and it is a prefix of the original one.
   */
  predicate HasSlack(v0: View, s: Session) {
    && v0.phase.Online? && v0.phase.recvOtp.Some?
    && s.v.phase.Online? && s.v.phase.recvOtp.Some? && |s.v.phase.recvRecords| <= |s.decs|
    && |s.v.phase.recvOtp.value| + PrivatelyDecrypted(s) == v0.maxRecvOnline
    && |s.v.phase.recvOtp.value| >= v0.maxRecvOnline - s.v.recvOnline
    && s.v.phase.recvOtp.value <= v0.phase.recvOtp.value
  }

  lemma SlackByInv(k: Keys, v0: View, s: Session)
    requires Fresh(v0) && v0.role.Leader? && Inv(k, v0, s) && Charged(s)
    ensures HasSlack(v0, s)
  {
    hide Sends, Within, Held, PaddedTo, SumTo, PlainAt, RecvAt;
  }

  /** One-time-pad slack, on every run that makes exactly application data private. */
  lemma PadSlack(k: Keys, v0: View, events: seq<Event>)
    requires Fresh(v0) && v0.role.Leader? && Run(k, Begin(v0), events).Some?
    requires PrivateIsApplicationData(DecPushes(events))
    ensures HasSlack(v0, Run(k, Begin(v0), events).value)
  {
    hide Run, Sends, Within, Held, PaddedTo, SumTo, PlainAt, RecvAt, HasSlack;
    BeginInv(k, v0);
    HistoryOfRun(k, Begin(v0), events);
    assert Run(k, Begin(v0), events).value.decs == DecPushes(events);
    RunKeepsInv(k, v0, Begin(v0), events);
    SumStart(RecvPrivateLens([]));
    RunIsCharged(k, v0, Begin(v0), events);
    SlackByInv(k, v0, Run(k, Begin(v0), events).value);
  }

  lemma SumStart(lens: seq<nat>)
    ensures SumTo(lens, 0) == 0
  {
  }

  /** Hence a flush within the online quota never runs out of pad: that error cannot be reached. */
  lemma PadNeverExceeded(k: Keys, v0: View, events: seq<Event>, isDecrypting: bool)
    requires Fresh(v0) && v0.role.Leader? && Run(k, Begin(v0), events).Some?
    requires PrivateIsApplicationData(DecPushes(events))
    ensures var v := Run(k, Begin(v0), events).value.v;
      var ops := v.decryptBuffer[..FlushCount(v, isDecrypting)];
      && v.phase.Online? && v.phase.recvOtp.Some?
      && ((isDecrypting ==> v.recvOnline + Sum(DecLens(ops)) <= v.maxRecvOnline) ==> Sum(PrivateLens(ops)) <= |v.phase.recvOtp.value|)
  {
    hide Run, Sends, Held, PaddedTo, SumTo, PlainAt, RecvAt, DecLens, PrivateLens;
    PadSlack(k, v0, events);
    BeginInv(k, v0);
    RunKeepsInv(k, v0, Begin(v0), events);
    HistoryOfRun(k, Begin(v0), events);
    var s := Run(k, Begin(v0), events).value;
    assert s.decs == DecPushes(events);
    var ops := s.v.decryptBuffer[..FlushCount(s.v, isDecrypting)];
    PrivateAtMostAll(ops, |ops|);
    if !isDecrypting {
      UndecryptedArePublic(k.server, v0, s);
    }
  }

  // ---- Which part of the pad hides which record ----

  /** The masks the flushes of a run used, one per record they decrypted, in order. */
  predicate RunMasks(k: Keys, s: Session, events: seq<Event>, masks: seq<Option<seq<byte>>>)
    decreases |events|
  {
    if events == [] then masks == []
    else
      var c := if events[0].Flush? then FlushCount(s.v, events[0].isDecrypting) else 0;
      && CanStep(k, s, events[0]) && c <= |masks|
      && (events[0].Flush? ==> FlushMasks(s.v, events[0].isDecrypting, masks[..c]))
      && RunMasks(k, Step(k, s, events[0]), events[1..], masks[c..])
  }

  /** Each record decrypted so far was hidden by the chunk of the original pad for its position in the session. */
  predicate MasksPlaced(v0: View, s: Session, masks: seq<Option<seq<byte>>>) {
    && v0.phase.Online? && s.v.phase.Online? && |masks| == |s.v.phase.recvRecords| <= |s.decs|
    && forall i :: 0 <= i < |masks| ==> MaskedBy(v0.phase.recvOtp, RecvPrivateLens(s.decs), i, s.decs[i].mode, masks[i])
  }

  /** The chunk of what is left of the pad that a batch position gets is the chunk of the whole pad for the session position. */
  lemma MaskShifts(otp: Option<seq<byte>>, lens: seq<nat>, m: nat, part: seq<nat>, left: Option<seq<byte>>, j: nat, mode: Mode, mask: Option<seq<byte>>)
    requires Continues(lens, m, part) && j < |part|
    requires (otp.Some? ==> SumTo(lens, m) <= |otp.value|) && left == Remaining(otp, SumTo(lens, m))
    requires MaskedBy(left, part, j, mode, mask)
    ensures MaskedBy(otp, lens, m + j, mode, mask)
  {
    hide SumTo;
    SumToSplit(lens, m, part, j + 1);
    if otp.Some? {
      var pad, used := otp.value, SumTo(lens, m);
      var start := |pad| - used - SumTo(part, j + 1);
      SumToMonotone(part, j, j + 1);
      SumNext(part, j);
      assert m + (j + 1) == (m + j) + 1;
      assert pad[..|pad| - used][start..start + part[j]] == pad[start..start + part[j]];
    }
  }

  lemma SumNext(lens: seq<nat>, i: nat)
    requires i < |lens|
    ensures SumTo(lens, i + 1) == SumTo(lens, i) + lens[i]
  {
  }

  lemma MaskExtends(otp: Option<seq<byte>>, lens: seq<nat>, longer: seq<nat>, i: nat, mode: Mode, mask: Option<seq<byte>>)
    requires |lens| <= |longer| && (forall j :: 0 <= j < |lens| ==> longer[j] == lens[j])
    requires MaskedBy(otp, lens, i, mode, mask)
    ensures MaskedBy(otp, longer, i, mode, mask)
  {
    SumToExtends(lens, longer, i + 1);
  }

  /** Calls other than a flush decrypt nothing in MPC. */
  lemma MasksKept(k: Keys, v0: View, s: Session, e: Event, masks: seq<Option<seq<byte>>>)
    requires MasksPlaced(v0, s, masks) && CanStep(k, s, e) && !e.Flush?
    ensures MasksPlaced(v0, Step(k, s, e), masks)
  {
    hide MaskedBy;
    var t := Step(k, s, e);
    forall i | 0 <= i < |masks|
      ensures MaskedBy(v0.phase.recvOtp, RecvPrivateLens(t.decs), i, t.decs[i].mode, masks[i])
    {
      MaskExtends(v0.phase.recvOtp, RecvPrivateLens(s.decs), RecvPrivateLens(t.decs), i, s.decs[i].mode, masks[i]);
    }
  }

  lemma PadLeft(k: Gctr.Key, v0: View, s: Session)
    requires Receives(k, v0, s)
    ensures s.v.phase.Online? && v0.phase.Online? && |s.v.phase.recvRecords| + |s.v.decryptBuffer| == |s.decs|
    ensures var used := SumTo(RecvPrivateLens(s.decs), |s.v.phase.recvRecords|);
      (v0.phase.recvOtp.Some? ==> used <= |v0.phase.recvOtp.value|) && s.v.phase.recvOtp == Remaining(v0.phase.recvOtp, used)
  {
    hide PaddedTo, SumTo, PlainAt, RecvAt, Remaining;
  }

  lemma BatchContinues(k: Gctr.Key, v0: View, s: Session, c: nat)
    requires Receives(k, v0, s) && c <= |s.v.decryptBuffer|
    ensures var m, ops := |s.v.phase.recvRecords|, s.v.decryptBuffer[..c];
      && Continues(RecvPrivateLens(s.decs), m, PrivateLens(ops))
      && forall j :: 0 <= j < c ==> ops[j].mode == s.decs[m + j].mode
  {
    hide Aad, Be, Receives;
    PadLeft(k, v0, s);
    var m, ops := |s.v.phase.recvRecords|, s.v.decryptBuffer[..c];
    forall j | 0 <= j < c
      ensures RecvPrivateLens(s.decs)[m + j] == PrivateLens(ops)[j] && ops[j].mode == s.decs[m + j].mode
    {
      PendingDecryptAt(k, v0, s, j);
    }
  }

  /** The `j`-th pending decrypt is the push at its position in the session. */
  lemma PendingDecryptAt(k: Gctr.Key, v0: View, s: Session, j: nat)
    requires Receives(k, v0, s) && j < |s.v.decryptBuffer|
    ensures s.v.phase.Online? && |s.v.phase.recvRecords| + |s.v.decryptBuffer| == |s.decs|
    ensures var i := |s.v.phase.recvRecords| + j; s.v.decryptBuffer[j] == DecOpAt(i, s.decs[i])
  {
    hide PaddedTo, SumTo, PlainAt, RecvAt, Remaining, DecOpAt, RecvLens, RecvPrivateLens;
    var m := |s.v.phase.recvRecords|;
    assert s.v.decryptBuffer[(m + j) - m] == DecOpAt(m + j, s.decs[m + j]);
  }

  lemma MasksFlush(k: Keys, v0: View, s: Session, isDecrypting: bool, masks: seq<Option<seq<byte>>>, more: seq<Option<seq<byte>>>)
    requires Receives(k.server, v0, s) && MasksPlaced(v0, s, masks) && CanStep(k, s, Flush(isDecrypting))
    requires FlushMasks(s.v, isDecrypting, more)
    ensures MasksPlaced(v0, Step(k, s, Flush(isDecrypting)), masks + more)
  {
    hide MaskedBy, SumTo, PaddedTo, RecvPrivateLens, PrivateLens, FlushCount, CanStep, Step, Sum, PlainAt, RecvAt, Remaining, Receives, Continues;
    var t := Step(k, s, Flush(isDecrypting));
    var m, c := |s.v.phase.recvRecords|, FlushCount(s.v, isDecrypting);
    var ops := s.v.decryptBuffer[..c];
    FlushReceives(k, s, isDecrypting);
    BatchContinues(k.server, v0, s, c);
    PadLeft(k.server, v0, s);
    forall i | 0 <= i < m + c
      ensures MaskedBy(v0.phase.recvOtp, RecvPrivateLens(t.decs), i, t.decs[i].mode, (masks + more)[i])
    {
      if i >= m {
        MaskShifts(v0.phase.recvOtp, RecvPrivateLens(s.decs), m, PrivateLens(ops), s.v.phase.recvOtp, i - m, ops[i - m].mode, more[i - m]);
      }
    }
  }

  lemma {:induction false} MasksPlacedOnRun(k: Keys, v0: View, s: Session, events: seq<Event>, before: seq<Option<seq<byte>>>, masks: seq<Option<seq<byte>>>)
    requires Inv(k, v0, s) && MasksPlaced(v0, s, before) && Run(k, s, events).Some? && RunMasks(k, s, events, masks)
    ensures MasksPlaced(v0, Run(k, s, events).value, before + masks)
    decreases |events|
  {
    hide Within, Sends, Receives, Held, CanStep, Step, MasksPlaced, FlushMasks, FlushCount;
    if events == [] {
      assert before + masks == before;
    } else {
      var e := events[0];
      var c := if e.Flush? then FlushCount(s.v, e.isDecrypting) else 0;
      StepKeepsInv(k, v0, s, e);
      if e.Flush? {
        MasksFlush(k, v0, s, e.isDecrypting, before, masks[..c]);
      } else {
        MasksKept(k, v0, s, e, before);
        assert before + masks[..c] == before;
      }
      MasksPlacedOnRun(k, v0, Step(k, s, e), events[1..], before + masks[..c], masks[c..]);
      assert before + masks[..c] + masks[c..] == before + masks;
    }
  }

  /**
   * On every run of the leader, each private record decrypted in MPC was hidden by the slice of
   * the original pad that its position in the session determines.
   */
  lemma MasksArePadChunks(k: Keys, v0: View, events: seq<Event>, masks: seq<Option<seq<byte>>>, i: nat)
    requires Fresh(v0) && v0.role.Leader? && Run(k, Begin(v0), events).Some?
    requires RunMasks(k, Begin(v0), events, masks) && i < |masks|
    ensures var t := Run(k, Begin(v0), events).value;
      var pad, lens := v0.phase.recvOtp.value, RecvPrivateLens(DecPushes(events));
      && t.v.phase.Online? && |masks| == |t.v.phase.recvRecords| && i < |lens| && SumTo(lens, i + 1) <= |pad|
      && (DecPushes(events)[i].mode.Public? ==> masks[i] == None)
      && (DecPushes(events)[i].mode.Private? ==>
            masks[i] == Some(PadChunk(pad, lens, i)) && |masks[i].value| == |DecPushes(events)[i].ciphertext|)
  {
    hide Run, RunMasks, Within, Sends, Receives, Held, SumTo, PadChunk;
    BeginInv(k, v0);
    HistoryOfRun(k, Begin(v0), events);
    assert Begin(v0).decs == [] && Begin(v0).decs + DecPushes(events) == DecPushes(events);
    MasksPlacedOnRun(k, v0, Begin(v0), events, [], masks);
    assert [] + masks == masks;
    assert MaskedBy(v0.phase.recvOtp, RecvPrivateLens(DecPushes(events)), i, DecPushes(events)[i].mode, masks[i]);
  }

  /**
   * So no byte of the pad is used twice: the slices that hid two private records do not overlap,
   * the later record's lying wholly before the earlier one's, and both lie inside the pad.
   */
  lemma PadChunksDisjoint(k: Keys, v0: View, events: seq<Event>, masks: seq<Option<seq<byte>>>, i: nat, j: nat)
    requires Fresh(v0) && v0.role.Leader? && Run(k, Begin(v0), events).Some?
    requires RunMasks(k, Begin(v0), events, masks) && i < j < |masks|
    requires masks[i].Some? && masks[j].Some?
    ensures var pad, lens := v0.phase.recvOtp.value, RecvPrivateLens(DecPushes(events));
      && i < j < |lens| && SumTo(lens, i + 1) <= SumTo(lens, j + 1) <= |pad|
      && var x, y := ChunkStart(|pad|, lens, i), ChunkStart(|pad|, lens, j);
         && y + |masks[j].value| <= x && x + |masks[i].value| <= |pad|
         && masks[i].value == pad[x..x + |masks[i].value|] && masks[j].value == pad[y..y + |masks[j].value|]
  {
    hide Run, RunMasks, SumTo;
    MasksArePadChunks(k, v0, events, masks, i);
    MasksArePadChunks(k, v0, events, masks, j);
    var lens := RecvPrivateLens(DecPushes(events));
    SumToMonotone(lens, i + 1, j);
    SumNext(lens, j);
    SumNext(lens, i);
  }
}
