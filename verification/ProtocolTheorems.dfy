/** The leader is safe on every run, and the follower that consumed its messages mirrors it. */
module ProtocolTheorems {
  import opened Bytes
  import opened Parties
  import opened RecordTypes
  import opened RecordLayerSpec
  import opened ProtocolSpec
  import opened Erasure
  import Runs = RecordLayerRuns
  import Theorems = RecordLayerTheorems
  import Gctr
  import ValidateTranscript

  // ---- The leader's invariant ----

  predicate LeaderPush(p: Runs.EncPush) {
    p.plaintext.Some? && p.mode == ModeOf(p.typ)
  }

  /** The leader knows every plaintext and hides exactly application data. */
  predicate LeaderUsage(encs: seq<Runs.EncPush>, decs: seq<Runs.DecPush>) {
    && (forall i :: 0 <= i < |encs| ==> LeaderPush(encs[i]))
    && Theorems.PrivateIsApplicationData(decs)
  }

  ghost predicate Online(vm: Vm, v0: View, l: LeaderState) {
    && Runs.Inv(vm.keys, v0, l.s) && Theorems.Charged(l.s)
    && l.transcript.None?
  }

  /** The transcript is what the pushes determine, and so is all that was or will be popped. */
  ghost predicate Recorded(vm: Vm, v0: View, l: LeaderState) {
    && l.transcript.Some?
    && Theorems.SentTranscript(vm.keys.client, v0.enc, l.s.encs, l.transcript.value.sent)
    && l.transcript.value.recv == Theorems.RecvTranscript(vm.keys.server, Leader, l.s.decs)
    && l.s.poppedEnc + l.s.v.encryptedBuffer == Theorems.EncryptedOutputs(vm.keys.client, Leader, l.s.encs)
    && l.s.poppedDec + l.s.v.decryptedBuffer == Theorems.PlainOutputs(vm.keys.server, Leader, l.s.decs)
  }

  ghost predicate LeaderInv(vm: Vm, v0: View, l: LeaderState) {
    && Runs.Fresh(v0) && v0.role.Leader?
    && WellModed(l.s.v) && LeaderUsage(l.s.encs, l.s.decs) && OutputsKnown(l.s.v)
    && (l.serverRandom.Some? <==> !l.prf.SessionKeys?)
    && (l.cfVd.Some? <==> l.prf.ServerFinished? || l.prf.PrfComplete?)
    && (l.sfVd.Some? <==> l.prf.PrfComplete?)
    && (l.cfVd.Some? ==> |l.cfVd.value| == 12) && (l.sfVd.Some? ==> |l.sfVd.value| == 12)
    && match l.phase
       case Handshake => Online(vm, v0, l) && l.s.v.enc.phase.Awaiting? && l.s.v.dec.phase.Awaiting?
       case Active => Online(vm, v0, l) && l.s.v.enc.phase.Ready? && l.s.v.dec.phase.Ready?
                      && l.serverKey.Some? && l.serverKey.value.onCurve
       case Closed => l.s.v.phase.Complete? && !WantsFlush(l.s.v) && Recorded(vm, v0, l)
                      && l.s.v.enc.phase.Ready? && l.s.v.dec.phase.Ready?
                      && l.serverKey.Some? && l.serverKey.value.onCurve
       case _ => false
  }

  lemma LeaderStarts(vm: Vm, l: LeaderState)
    requires LeaderStart(l)
    ensures LeaderInv(vm, l.s.v, l)
  {
    Runs.BeginInv(vm.keys, l.s.v);
    Theorems.SumStart(Runs.RecvPrivateLens([]));
  }

  /** The record-layer call a leader call makes, if any. */
  function EventOf(l: LeaderState, c: Call): Option<Runs.Event> {
    match c
    case PrepareEncryption => Some(Runs.Setup)
    case PushIncoming(typ, version, payload) =>
      if |payload| < 24 then None else Some(Runs.PushDecrypt(DecPushOf(typ, version, payload)))
    case PushOutgoing(typ, version, plaintext) => Some(Runs.PushEncrypt(EncPushOf(typ, version, plaintext)))
    case NextIncoming => Some(Runs.NextDecrypted)
    case NextOutgoing => Some(Runs.NextEncrypted)
    case StartTraffic => Some(Runs.StartTraffic)
    case Flush => if l.phase.Handshake? || !WantsFlush(l.s.v) then None else Some(Runs.Flush(l.isDecrypting))
    case _ => None
  }

  lemma CallIsEvent(vm: Vm, l: LeaderState, c: Call)
    requires CanCall(vm, l, c) && !c.CloseConnection?
    ensures var e := EventOf(l, c);
      if e.None? then Called(vm, l, c).s == l.s
      else Runs.CanStep(vm.keys, l.s, e.value) && Called(vm, l, c).s == Runs.Step(vm.keys, l.s, e.value)
  {
    hide CanFlush, Flushed, CanPushEncrypt, PushedEncrypt, CanPushDecrypt, PushedDecrypt, InputsOf;
  }

  lemma UsageKept(vm: Vm, l: LeaderState, c: Call)
    requires CanCall(vm, l, c) && LeaderUsage(l.s.encs, l.s.decs)
    ensures LeaderUsage(Called(vm, l, c).s.encs, Called(vm, l, c).s.decs)
  {
    hide CanFlush, Flushed, CanCommit, Committed, TranscriptOf, InputsOf, Aad, Be;
  }

  /** Pending operations carry the mode their type calls for, because the pushes do. */
  lemma ModedByInv(k: Keys, v0: View, s: Runs.Session)
    requires Runs.Inv(k, v0, s) && LeaderUsage(s.encs, s.decs) && v0.role.Leader?
    ensures WellModed(s.v)
  {
    hide Aad, Be, PaddedTo, SumTo, Runs.SentAt, Runs.RecvAt, Runs.EncryptedAt, Runs.PlainAt, Remaining;
    var n, m := |s.v.phase.sentRecords|, |s.v.phase.recvRecords|;
    forall i | 0 <= i < |s.v.encryptBuffer|
      ensures EncModed(s.v.encryptBuffer[i])
    {
      assert s.v.encryptBuffer[(n + i) - n] == Runs.EncOpAt(n + i, s.encs[n + i]);
      assert LeaderPush(s.encs[n + i]);
    }
    forall i | 0 <= i < |s.v.decryptBuffer|
      ensures DecModed(s.v.decryptBuffer[i])
    {
      assert s.v.decryptBuffer[(m + i) - m] == Runs.DecOpAt(m + i, s.decs[m + i]);
    }
  }

  lemma KnownByInv(k: Keys, v0: View, s: Runs.Session)
    requires Runs.Inv(k, v0, s) && v0.role.Leader?
    ensures OutputsKnown(s.v)
  {
    hide Aad, Be, PaddedTo, SumTo, Runs.SentAt, Runs.RecvAt, Remaining, Gctr.Apply, Gctr.Tag;
    var n, m := |s.poppedEnc|, |s.poppedDec|;
    forall i | 0 <= i < |s.v.encryptedBuffer|
      ensures s.v.encryptedBuffer[i].tag.Some?
    {
      assert (s.poppedEnc + s.v.encryptedBuffer)[n + i] == Runs.EncryptedAt(k.client, s.v.role, n + i, s.encs[n + i]);
    }
    forall i | 0 <= i < |s.v.decryptedBuffer|
      ensures s.v.decryptedBuffer[i].plaintext.Some?
    {
      assert (s.poppedDec + s.v.decryptedBuffer)[m + i] == Runs.PlainAt(k.server, s.v.role, m + i, s.decs[m + i]);
    }
  }

  lemma AeadPhaseKept(k: Keys, s: Runs.Session, e: Runs.Event)
    requires Runs.CanStep(k, s, e)
    ensures var t := Runs.Step(k, s, e);
      if e.Setup? then t.v.enc.phase.Ready? && t.v.dec.phase.Ready?
      else t.v.enc.phase == s.v.enc.phase && t.v.dec.phase == s.v.dec.phase
  {
    hide CanFlush, EncryptedAll, SentAll, PlainAll, RecvAll, Remaining, Aad, Be, PaddedTo, SumTo, FirstApplicationData;
  }

  lemma OnlineKept(vm: Vm, v0: View, l: LeaderState, c: Call)
    requires LeaderInv(vm, v0, l) && CanCall(vm, l, c) && !c.CloseConnection? && !l.phase.Closed?
    ensures LeaderInv(vm, v0, Called(vm, l, c))
  {
    hide Runs.Inv, Runs.Fresh, Runs.CanStep, Runs.Step, Theorems.Charged, Theorems.PrivateIsApplicationData, LeaderUsage, WellModed, OutputsKnown;
    var e := EventOf(l, c);
    UsageKept(vm, l, c);
    CallIsEvent(vm, l, c);
    if e.Some? {
      UsageDecs(Called(vm, l, c).s);
      Runs.StepKeepsInv(vm.keys, v0, l.s, e.value);
      Theorems.ChargedKept(vm.keys, v0, l.s, e.value);
      AeadPhaseKept(vm.keys, l.s, e.value);
      ModedByInv(vm.keys, v0, Called(vm, l, c).s);
      KnownByInv(vm.keys, v0, Called(vm, l, c).s);
    }
  }

  lemma UsageDecs(s: Runs.Session)
    requires LeaderUsage(s.encs, s.decs)
    ensures Theorems.PrivateIsApplicationData(s.decs)
  {
  }

  lemma CloseKept(vm: Vm, v0: View, l: LeaderState)
    requires LeaderInv(vm, v0, l) && CanCall(vm, l, Call.CloseConnection)
    ensures LeaderInv(vm, v0, Called(vm, l, Call.CloseConnection))
  {
    hide Runs.Inv, Runs.Fresh, Theorems.Charged, LeaderUsage, TagsVerify, Decryptable, PaddedTo, RecvAll, PublicLens, EncModed, DecModed,
         Gctr.Apply, Theorems.SentTranscript, Theorems.RecvTranscript, Theorems.EncryptedOutputs, Theorems.PlainOutputs;
    Theorems.CommitFrom(vm.keys, v0, l.s);
  }

  lemma RecordedKept(vm: Vm, v0: View, l: LeaderState, c: Call)
    requires Recorded(vm, v0, l) && (c.NextIncoming? || c.NextOutgoing?) && CanCall(vm, l, c)
    ensures Recorded(vm, v0, Called(vm, l, c))
  {
    hide Theorems.SentTranscript, Theorems.RecvTranscript, Theorems.EncryptedOutputs, Theorems.PlainOutputs;
    var s, t := l.s, Called(vm, l, c).s;
    assert t.poppedEnc + t.v.encryptedBuffer == s.poppedEnc + s.v.encryptedBuffer;
    assert t.poppedDec + t.v.decryptedBuffer == s.poppedDec + s.v.decryptedBuffer;
  }

  lemma PopKept(vm: Vm, v0: View, l: LeaderState, c: Call)
    requires LeaderInv(vm, v0, l) && CanCall(vm, l, c) && l.phase.Closed?
    ensures LeaderInv(vm, v0, Called(vm, l, c))
    ensures Emitted(vm, l, c) == []
  {
    hide Runs.Inv, Runs.Fresh, Theorems.Charged, LeaderUsage, CanFlush, Flushed, InputsOf, EncModed, DecModed, Recorded;
    if c.NextIncoming? || c.NextOutgoing? {
      RecordedKept(vm, v0, l, c);
    } else {
      assert c.Flush? || c.DeferDecryption?;
      SameRecord(vm, v0, l, Called(vm, l, c));
    }
  }

  lemma SameRecord(vm: Vm, v0: View, l: LeaderState, m: LeaderState)
    requires Recorded(vm, v0, l) && m.s == l.s && m.transcript == l.transcript
    ensures Recorded(vm, v0, m)
  {
  }

  /** Every successful call of the leader keeps its invariant. */
  lemma CallKeepsInv(vm: Vm, v0: View, l: LeaderState, c: Call)
    requires LeaderInv(vm, v0, l) && CanCall(vm, l, c)
    ensures LeaderInv(vm, v0, Called(vm, l, c))
  {
    hide LeaderInv, CanCall, Called;
    if l.phase.Closed? {
      PopKept(vm, v0, l, c);
    } else if c.CloseConnection? {
      CloseKept(vm, v0, l);
    } else {
      OnlineKept(vm, v0, l, c);
    }
  }

  lemma {:induction false} LeaderRunInv(vm: Vm, v0: View, l: LeaderState, calls: seq<Call>)
    requires LeaderInv(vm, v0, l) && LeaderRun(vm, l, calls).Some?
    ensures LeaderInv(vm, v0, LeaderRun(vm, l, calls).value.0)
    decreases |calls|
  {
    hide LeaderInv, CanCall, Called, Emitted;
    if calls != [] {
      CallKeepsInv(vm, v0, l, calls[0]);
      LeaderRunInv(vm, v0, Called(vm, l, calls[0]), calls[1..]);
    }
  }

  /** On every run: quotas, buffers and numbering hold, outputs are complete, and the pad covers the online quota left. */
  lemma LeaderIsSafe(vm: Vm, l0: LeaderState, calls: seq<Call>)
    requires LeaderStart(l0) && LeaderRun(vm, l0, calls).Some?
    ensures var l := LeaderRun(vm, l0, calls).value.0;
      && OutputsKnown(l.s.v)
      && (Connected(l) ==>
            && Theorems.SafeWithin(l0.s.v, l.s)
            && Theorems.HasSlack(l0.s.v, l.s))
      && (l.phase.Closed? ==> !WantsFlush(l.s.v))
  {
    hide Runs.Inv, Theorems.SafeWithin, Theorems.HasSlack, Theorems.Charged, WantsFlush, OutputsKnown, LeaderUsage;
    LeaderStarts(vm, l0);
    LeaderRunInv(vm, l0.s.v, l0, calls);
    var l := LeaderRun(vm, l0, calls).value.0;
    if Connected(l) {
      Theorems.SafeByInv(vm.keys, l0.s.v, l.s);
      Theorems.SlackByInv(vm.keys, l0.s.v, l.s);
    }
  }

  // ---- The follower mirrors the leader ----

  function ErasedTranscript(t: Option<TlsTranscript>): Option<TlsTranscript> {
    if t.None? then None else Some(EraseTranscript(t.value))
  }

  /** The follower's state is the leader's with its secrets erased. */
  ghost predicate Mirrors(l: LeaderState, f: FollowerState) {
    && f.v == EraseView(l.s.v, l.s.poppedEnc, l.s.poppedDec, l.serverKey.Some?)
    && f.prf == l.prf && f.serverRandom == l.serverRandom && f.serverKey == l.serverKey
    && f.cfVd == l.cfVd && f.sfVd == l.sfVd
    && f.transcript == ErasedTranscript(l.transcript)
  }

  /** A server key the follower takes: its first, and one that parses. */
  predicate KeyTaken(l: LeaderState, c: Call) {
    c.SetServerKeyShare? ==> l.serverKey.None? && c.key.onCurve
  }

  /** The follower takes what a call sends, and mirrors the leader again. */
  ghost predicate Follows(vm: Vm, l: LeaderState, f: FollowerState, c: Call)
    requires CanCall(vm, l, c)
  {
    var taken := FollowerRun(vm, f, Emitted(vm, l, c));
    taken.Some? && Mirrors(Called(vm, l, c), taken.value)
  }

  lemma OneMessage(vm: Vm, f: FollowerState, w: Wire)
    requires f.transcript.None? && CanReceive(vm, f, w)
    ensures FollowerRun(vm, f, [w]) == Some(Received(vm, f, w))
  {
    hide CanReceive, Received;
    assert FollowerRun(vm, Received(vm, f, w), []) == Some(Received(vm, f, w));
  }

  lemma MirrorHandshake(vm: Vm, v0: View, l: LeaderState, f: FollowerState, c: Call)
    requires LeaderInv(vm, v0, l) && Mirrors(l, f) && CanCall(vm, l, c) && KeyTaken(l, c)
    requires c.SetServerRandom? || c.SetServerKeyShare? || c.GetClientFinishedVd? || c.GetServerFinishedVd?
    ensures Follows(vm, l, f, c)
  {
    hide Runs.Inv, Runs.Fresh, Theorems.Charged, LeaderUsage, OutputsKnown, WellModed, ErasePhase, EraseOp, EraseRecord, Mapped, FollowerRun;
    OneMessage(vm, f, Emitted(vm, l, c)[0]);
  }

  lemma MirrorPush(vm: Vm, v0: View, l: LeaderState, f: FollowerState, c: Call)
    requires LeaderInv(vm, v0, l) && Mirrors(l, f) && CanCall(vm, l, c)
    requires c.PushIncoming? || c.PushOutgoing? || c.StartTraffic?
    ensures Follows(vm, l, f, c)
  {
    hide Runs.Inv, Runs.Fresh, Theorems.Charged, LeaderUsage, OutputsKnown, WellModed, ErasePhase, EraseOp, EraseRecord, Mapped, Aad, Be, FollowerRun;
    if c.PushOutgoing? {
      ErasePushEncrypt(l.s.v, l.s.poppedEnc, l.s.poppedDec, l.serverKey.Some?, c.typ, c.version, c.plaintext);
    }
    OneMessage(vm, f, Emitted(vm, l, c)[0]);
  }

  lemma MirrorFlush(vm: Vm, v0: View, l: LeaderState, f: FollowerState)
    requires LeaderInv(vm, v0, l) && Mirrors(l, f) && CanCall(vm, l, Call.Flush) && Emitted(vm, l, Call.Flush) != []
    ensures Follows(vm, l, f, Call.Flush)
  {
    hide Runs.Inv, Runs.Fresh, Theorems.Charged, LeaderUsage, OutputsKnown, WellModed, EraseView, CanFlush, Flushed, InputsOf, Runs.PendingInputs, FollowerRun;
    EraseFlush(vm.keys, l.s.v, l.s.poppedEnc, l.s.poppedDec, l.isDecrypting, Runs.PendingInputs(l.s));
    OneMessage(vm, f, Emitted(vm, l, Call.Flush)[0]);
  }

  lemma MirrorClose(vm: Vm, v0: View, l: LeaderState, f: FollowerState)
    requires LeaderInv(vm, v0, l) && Mirrors(l, f) && CanCall(vm, l, Call.CloseConnection)
    ensures Follows(vm, l, f, Call.CloseConnection)
  {
    hide Runs.Inv, Runs.Fresh, Theorems.Charged, LeaderUsage, OutputsKnown, WellModed, EraseView, CanCommit, Committed, TranscriptOf, EraseTranscript, FollowerRun;
    EraseCommit(vm.keys, l.s.v, l.s.poppedEnc, l.s.poppedDec);
    OneMessage(vm, f, Emitted(vm, l, Call.CloseConnection)[0]);
  }

  /** Calls that send nothing leave the mirror image as it is, pops included. */
  lemma MirrorSilent(vm: Vm, v0: View, l: LeaderState, f: FollowerState, c: Call)
    requires LeaderInv(vm, v0, l) && Mirrors(l, f) && CanCall(vm, l, c) && Emitted(vm, l, c) == []
    ensures Follows(vm, l, f, c)
  {
    hide Runs.Inv, Runs.Fresh, Theorems.Charged, LeaderUsage, OutputsKnown, WellModed, ErasePhase, EraseOp, EraseRecord, Mapped, CanFlush, Flushed, InputsOf;
    if c.NextIncoming? || c.NextOutgoing? {
      ErasePop(l.s.v, l.s.poppedEnc, l.s.poppedDec, l.serverKey.Some?);
    }
  }

  lemma MirrorCall(vm: Vm, v0: View, l: LeaderState, f: FollowerState, c: Call)
    requires LeaderInv(vm, v0, l) && Mirrors(l, f) && CanCall(vm, l, c) && KeyTaken(l, c)
    ensures Follows(vm, l, f, c)
  {
    hide LeaderInv, Mirrors, CanCall, Called, CanReceive, Received, KeyTaken, FollowerRun, Follows;
    if Emitted(vm, l, c) == [] {
      MirrorSilent(vm, v0, l, f, c);
    } else {
      match c
      case SetServerRandom(_) => MirrorHandshake(vm, v0, l, f, c);
      case SetServerKeyShare(_) => MirrorHandshake(vm, v0, l, f, c);
      case GetClientFinishedVd(_) => MirrorHandshake(vm, v0, l, f, c);
      case GetServerFinishedVd(_) => MirrorHandshake(vm, v0, l, f, c);
      case Flush => MirrorFlush(vm, v0, l, f);
      case CloseConnection => MirrorClose(vm, v0, l, f);
      case _ => MirrorPush(vm, v0, l, f, c);
    }
  }

  lemma KeyRejected(vm: Vm, v0: View, l: LeaderState, f: FollowerState, c: Call)
    requires LeaderInv(vm, v0, l) && Mirrors(l, f) && CanCall(vm, l, c) && !KeyTaken(l, c)
    ensures FollowerRun(vm, f, Emitted(vm, l, c)).None?
  {
    hide Runs.Inv, Runs.Fresh, Theorems.Charged, LeaderUsage, OutputsKnown, WellModed, EraseView;
  }

  lemma {:induction false} FollowerRunConcat(vm: Vm, f: FollowerState, a: seq<Wire>, b: seq<Wire>)
    ensures FollowerRun(vm, f, a + b) == if FollowerRun(vm, f, a).None? then None else FollowerRun(vm, FollowerRun(vm, f, a).value, b)
    decreases |a|
  {
    hide CanReceive, Received;
    if a == [] {
      assert a + b == b;
    } else if f.transcript.None? && CanReceive(vm, f, a[0]) {
      assert (a + b)[0] == a[0] && (a + b)[1..] == a[1..] + b;
      FollowerRunConcat(vm, Received(vm, f, a[0]), a[1..], b);
    } else {
      assert (a + b)[0] == a[0];
      FollowerStopped(vm, f, b);
    }
  }

  lemma FollowerStopped(vm: Vm, f: FollowerState, b: seq<Wire>)
    ensures f.transcript.Some? ==> FollowerRun(vm, f, b) == Some(f)
  {
  }

  /** The server keys a sequence of calls sets, in order. */
  function KeyShares(calls: seq<Call>): seq<PublicKey> {
    if calls == [] then []
    else (if calls[0].SetServerKeyShare? then [calls[0].key] else []) + KeyShares(calls[1..])
  }

  /** The calls set at most one server key counting one set before, and only keys that parse. */
  predicate KeysTaken(before: Option<PublicKey>, calls: seq<Call>) {
    var keys := KeyShares(calls);
    keys == [] || (before.None? && |keys| == 1 && keys[0].onCurve)
  }

  lemma KeysTakenStep(vm: Vm, l: LeaderState, calls: seq<Call>)
    requires calls != [] && CanCall(vm, l, calls[0])
    ensures KeysTaken(l.serverKey, calls) <==> KeyTaken(l, calls[0]) && KeysTaken(Called(vm, l, calls[0]).serverKey, calls[1..])
  {
    hide CanFlush, Flushed, CanCommit, Committed, TranscriptOf, InputsOf, Aad, Be, Runs.CanStep, Runs.Step;
    var keys := KeyShares(calls[1..]);
    if calls[0].SetServerKeyShare? {
      assert KeyShares(calls) == [calls[0].key] + keys;
    } else {
      assert KeyShares(calls) == keys;
    }
  }

  lemma {:induction false} MirrorRun(vm: Vm, v0: View, l: LeaderState, f: FollowerState, calls: seq<Call>)
    requires LeaderInv(vm, v0, l) && Mirrors(l, f) && LeaderRun(vm, l, calls).Some?
    ensures var (end, sent) := LeaderRun(vm, l, calls).value;
      && (FollowerRun(vm, f, sent).Some? <==> KeysTaken(l.serverKey, calls))
      && (FollowerRun(vm, f, sent).Some? ==> Mirrors(end, FollowerRun(vm, f, sent).value))
    decreases |calls|
  {
    hide LeaderInv, Mirrors, CanCall, Called, CanReceive, Received, Emitted, KeyTaken, KeyShares, FollowerRun;
    if calls == [] {
      NothingSent(vm, f);
    } else {
      var c, rest := calls[0], calls[1..];
      var l' := Called(vm, l, c);
      var out, sent := Emitted(vm, l, c), LeaderRun(vm, l', rest).value.1;
      KeysTakenStep(vm, l, calls);
      FollowerRunConcat(vm, f, out, sent);
      if KeyTaken(l, c) {
        MirrorCall(vm, v0, l, f, c);
        CallKeepsInv(vm, v0, l, c);
        MirrorRun(vm, v0, l', FollowerRun(vm, f, out).value, rest);
      } else {
        KeyRejected(vm, v0, l, f, c);
      }
    }
  }

  lemma NothingSent(vm: Vm, f: FollowerState)
    ensures FollowerRun(vm, f, []) == Some(f) && KeyShares([]) == []
  {
  }

  /** The two parties allocated the same resources; only the leader drew a pad. */
  predicate Paired(l0: LeaderState, f0: FollowerState) {
    LeaderStart(l0) && FollowerStart(f0) && f0.v == EraseView(l0.s.v, [], [], false)
  }

  /** Two parties that allocate with the same configuration are so paired. */
  lemma AllocationsPair(sentBase: nat, recvBase: nat, sentRecords: nat, recvRecords: nat, sentLen: nat, recvLenOnline: nat, recvLen: nat, otp: seq<byte>)
    ensures Allocated(Initial(Follower), sentBase, recvBase, sentRecords, recvRecords, sentLen, recvLenOnline, recvLen, [])
            == EraseView(Allocated(Initial(Leader), sentBase, recvBase, sentRecords, recvRecords, sentLen, recvLenOnline, recvLen, otp), [], [], false)
  {
  }

  /**
   * Simulation. The follower accepts everything a successful run of the leader sends exactly
   * when at most one server key was set and it parses; its state is then the erased leader's.
   */
  lemma FollowerMirrorsLeader(vm: Vm, l0: LeaderState, f0: FollowerState, calls: seq<Call>)
    requires Paired(l0, f0) && LeaderRun(vm, l0, calls).Some?
    ensures var (l, sent) := LeaderRun(vm, l0, calls).value;
      && (FollowerRun(vm, f0, sent).Some? <==>
            KeyShares(calls) == [] || (|KeyShares(calls)| == 1 && KeyShares(calls)[0].onCurve))
      && (FollowerRun(vm, f0, sent).Some? ==> Mirrors(l, FollowerRun(vm, f0, sent).value))
  {
    hide LeaderInv, LeaderRun, FollowerRun, KeyShares, EraseView;
    LeaderStarts(vm, l0);
    MirrorRun(vm, l0.s.v, l0, f0, calls);
  }

  lemma TwoShares(key: PublicKey)
    ensures KeyShares([SetServerKeyShare(key), SetServerKeyShare(key)]) == [key, key]
  {
    var share := SetServerKeyShare(key);
    assert [share][1..] == [] && [share, share][1..] == [share];
    assert KeyShares([share]) == [key] + KeyShares([]);
    assert KeyShares([share, share]) == [key] + KeyShares([share]);
  }

  /** A leader may set a server key twice; its follower then fails, whatever the keys. */
  lemma SecondKeyRejected(vm: Vm, l0: LeaderState, f0: FollowerState, key: PublicKey)
    requires Paired(l0, f0) && key.group == SECP256R1
    ensures var run := LeaderRun(vm, l0, [SetServerKeyShare(key), SetServerKeyShare(key)]);
      run.Some? && FollowerRun(vm, f0, run.value.1).None?
  {
    hide EraseView, Runs.Fresh;
    var share := SetServerKeyShare(key);
    var l1 := Called(vm, l0, share);
    assert CanCall(vm, l0, share) && CanCall(vm, l1, share);
    assert [share, share][1..] == [share] && [share][1..] == [];
    assert LeaderRun(vm, l1, [share]).Some?;
    assert LeaderRun(vm, l0, [share, share]).Some?;
    FollowerMirrorsLeader(vm, l0, f0, [share, share]);
    TwoShares(key);
  }

  // ---- A closed connection ----

  function Outgoing(calls: seq<Call>): seq<Runs.EncPush> {
    if calls == [] then [] else OutgoingOf(calls[0]) + Outgoing(calls[1..])
  }

  /** Payloads too short to frame never get into a successful run. */
  function Incoming(calls: seq<Call>): seq<Runs.DecPush> {
    if calls == [] then [] else IncomingOf(calls[0]) + Incoming(calls[1..])
  }

  /** The key in force after the calls: the last one set. */
  function LastKey(before: Option<PublicKey>, calls: seq<Call>): Option<PublicKey> {
    var keys := KeyShares(calls);
    if keys == [] then before else Some(keys[|keys| - 1])
  }

  function OutgoingOf(c: Call): seq<Runs.EncPush> {
    if c.PushOutgoing? then [EncPushOf(c.typ, c.version, c.plaintext)] else []
  }

  function IncomingOf(c: Call): seq<Runs.DecPush> {
    if c.PushIncoming? && |c.payload| >= 24 then [DecPushOf(c.typ, c.version, c.payload)] else []
  }

  lemma CallHistory(vm: Vm, l: LeaderState, c: Call)
    requires CanCall(vm, l, c)
    ensures Called(vm, l, c).s.encs == l.s.encs + OutgoingOf(c)
    ensures Called(vm, l, c).s.decs == l.s.decs + IncomingOf(c)
    ensures Called(vm, l, c).serverKey == if c.SetServerKeyShare? then Some(c.key) else l.serverKey
  {
    hide CanFlush, Flushed, CanCommit, Committed, TranscriptOf, InputsOf, Aad, Be, EncPushOf, DecPushOf;
  }

  ghost predicate HistoryFrom(vm: Vm, l: LeaderState, calls: seq<Call>, end: LeaderState) {
    && end.s.encs == l.s.encs + Outgoing(calls)
    && end.s.decs == l.s.decs + Incoming(calls)
    && end.serverKey == LastKey(l.serverKey, calls)
  }

  lemma LastKeyStep(before: Option<PublicKey>, calls: seq<Call>)
    requires calls != []
    ensures LastKey(before, calls) == LastKey(if calls[0].SetServerKeyShare? then Some(calls[0].key) else before, calls[1..])
  {
  }

  lemma HistoryStep(vm: Vm, l: LeaderState, calls: seq<Call>, end: LeaderState)
    requires calls != [] && CanCall(vm, l, calls[0]) && HistoryFrom(vm, Called(vm, l, calls[0]), calls[1..], end)
    ensures HistoryFrom(vm, l, calls, end)
  {
    hide CanCall, Called, EncPushOf, DecPushOf, OutgoingOf, IncomingOf, LastKey, KeyShares;
    var c, rest := calls[0], calls[1..];
    CallHistory(vm, l, c);
    LastKeyStep(l.serverKey, calls);
    assert l.s.encs + OutgoingOf(c) + Outgoing(rest) == l.s.encs + (OutgoingOf(c) + Outgoing(rest));
    assert l.s.decs + IncomingOf(c) + Incoming(rest) == l.s.decs + (IncomingOf(c) + Incoming(rest));
  }

  lemma {:induction false} LeaderHistory(vm: Vm, l: LeaderState, calls: seq<Call>)
    requires LeaderRun(vm, l, calls).Some?
    ensures HistoryFrom(vm, l, calls, LeaderRun(vm, l, calls).value.0)
    decreases |calls|
  {
    hide CanCall, Called, Emitted, HistoryFrom;
    if calls == [] {
      NoHistory(vm, l);
    } else {
      LeaderHistory(vm, Called(vm, l, calls[0]), calls[1..]);
      HistoryStep(vm, l, calls, LeaderRun(vm, l, calls).value.0);
    }
  }

  lemma NoHistory(vm: Vm, l: LeaderState)
    ensures HistoryFrom(vm, l, [], l)
  {
  }

  /** What the follower, having mirrored a leader that closed, requires of the connection. */
  predicate WellFinished(l: LeaderState)
    requires l.transcript.Some?
  {
    var shown := EraseTranscript(l.transcript.value);
    && l.cfVd.Some? && |l.cfVd.value| == 12 && ValidateTranscript.IsSession(l.cfVd.value, shown.sent)
    && l.sfVd.Some? && |l.sfVd.value| == 12 && ValidateTranscript.IsSession(l.sfVd.value, shown.recv)
  }

  /** A record of the follower's tells all of the leader's but the plaintext of application data. */
  predicate Shows(f: Record, l: Record) {
    && f.seqNo == l.seqNo && f.typ == l.typ && f.nonce == l.nonce && f.ciphertext == l.ciphertext && f.plaintextRef == l.plaintextRef
    && l.plaintext.Some?
    && f.plaintext == if l.typ == ApplicationData then None else l.plaintext
  }

  predicate AllShow(f: seq<Record>, l: seq<Record>) {
    |f| == |l| && forall i :: 0 <= i < |l| ==> Shows(f[i], l[i])
  }

  lemma SentShows(k: Gctr.Key, a0: Aead, encs: seq<Runs.EncPush>, decs: seq<Runs.DecPush>, sent: seq<Record>)
    requires LeaderUsage(encs, decs) && Theorems.SentTranscript(k, a0, encs, sent)
    ensures AllShow(Mapped(EraseRecord, sent), sent)
  {
    hide Gctr.Apply, PaddedTo, Aad, Be;
    forall i | 0 <= i < |sent|
      ensures Shows(EraseRecord(sent[i]), sent[i])
    {
      assert LeaderPush(encs[i]);
      assert Runs.SentAt(k, a0, Runs.PushLens(encs), i, encs[i], sent[i]);
    }
  }

  lemma RecvShows(k: Gctr.Key, encs: seq<Runs.EncPush>, decs: seq<Runs.DecPush>)
    requires LeaderUsage(encs, decs)
    ensures AllShow(Mapped(EraseRecord, Theorems.RecvTranscript(k, Leader, decs)), Theorems.RecvTranscript(k, Leader, decs))
  {
    hide Gctr.Apply, Aad, Be;
  }

  /** The state of a leader that closed, in terms of the calls made on it. */
  ghost predicate Closes(vm: Vm, l0: LeaderState, calls: seq<Call>, l: LeaderState) {
    && l.transcript.Some? && l.serverKey.Some? && l.serverKey == LastKey(None, calls) && l.serverKey.value.onCurve
    && Theorems.SentTranscript(vm.keys.client, l0.s.v.enc, Outgoing(calls), l.transcript.value.sent)
    && l.transcript.value.recv == Theorems.RecvTranscript(vm.keys.server, Leader, Incoming(calls))
    && l.s.poppedEnc + l.s.v.encryptedBuffer == Theorems.EncryptedOutputs(vm.keys.client, Leader, Outgoing(calls))
    && l.s.poppedDec + l.s.v.decryptedBuffer == Theorems.PlainOutputs(vm.keys.server, Leader, Incoming(calls))
    && LeaderUsage(Outgoing(calls), Incoming(calls))
  }

  lemma ClosedBy(vm: Vm, l0: LeaderState, calls: seq<Call>)
    requires LeaderStart(l0) && LeaderRun(vm, l0, calls).Some? && LeaderRun(vm, l0, calls).value.0.phase.Closed?
    ensures Closes(vm, l0, calls, LeaderRun(vm, l0, calls).value.0)
  {
    hide LeaderRun, KeyShares, Outgoing, Incoming, Theorems.SentTranscript, Theorems.RecvTranscript, Theorems.EncryptedOutputs,
         Theorems.PlainOutputs, LeaderUsage, OutputsKnown, WellModed;
    LeaderStarts(vm, l0);
    LeaderRunInv(vm, l0.s.v, l0, calls);
    LeaderHistory(vm, l0, calls);
    var l := LeaderRun(vm, l0, calls).value.0;
    assert l.s.encs == Outgoing(calls) && l.s.decs == Incoming(calls);
  }

  /**
   * A closed connection, end to end. The leader's transcript is determined by what was pushed;
   * the follower ends exactly when one server key was set, with the same key and the leader's
   * transcript without its private plaintexts, and accepts it exactly when both directions are
   * sessions opening with the verify data the leader's TLS client was given.
   */
  lemma ConnectionAgrees(vm: Vm, l0: LeaderState, f0: FollowerState, calls: seq<Call>)
    requires Paired(l0, f0) && LeaderRun(vm, l0, calls).Some? && LeaderRun(vm, l0, calls).value.0.phase.Closed?
    ensures var (l, sent) := LeaderRun(vm, l0, calls).value;
      && Closes(vm, l0, calls, l)
      && var run := FollowerRun(vm, f0, sent);
         && (run.Some? <==> |KeyShares(calls)| == 1)
         && (run.Some? ==>
               && run.value.serverKey == l.serverKey && run.value.transcript.Some?
               && AllShow(run.value.transcript.value.sent, l.transcript.value.sent)
               && AllShow(run.value.transcript.value.recv, l.transcript.value.recv)
               && (Accepts(run.value) <==> WellFinished(l)))
  {
    hide LeaderRun, FollowerRun, KeyShares, EraseView, Outgoing, Incoming, Theorems.SentTranscript, Theorems.RecvTranscript,
         Theorems.EncryptedOutputs, Theorems.PlainOutputs, LeaderUsage, ValidateTranscript.IsSession, AllShow, Runs.Fresh;
    ClosedBy(vm, l0, calls);
    FollowerMirrorsLeader(vm, l0, f0, calls);
    var l := LeaderRun(vm, l0, calls).value.0;
    SentShows(vm.keys.client, l0.s.v.enc, Outgoing(calls), Incoming(calls), l.transcript.value.sent);
    RecvShows(vm.keys.server, Outgoing(calls), Incoming(calls));
  }

  // ---- Framing ----

  /** What the leader emits for its `i`-th record parses back into nonce, ciphertext and that ciphertext's own tag. */
  lemma EmittedFrame(k: Gctr.Key, i: nat, p: Runs.EncPush)
    ensures var r := Runs.EncryptedAt(k, Leader, i, p);
      var ciphertext := Gctr.Apply(k, Be(i, 8), p.Input());
      && r.tag.Some?
      && Framed(r.nonce, r.ciphertext, r.tag.value)
         == Be(i, 8) + ciphertext + Gctr.Tag(k, Be(i, 8), Aad(i, p.typ, p.version, p.len), ciphertext)
      && |Framed(r.nonce, r.ciphertext, r.tag.value)| == 24 + |p.Input()|
      && PartsOf(Framed(r.nonce, r.ciphertext, r.tag.value))
         == (Be(i, 8), ciphertext, Gctr.Tag(k, Be(i, 8), Aad(i, p.typ, p.version, p.len), ciphertext))
  {
    hide Gctr.Apply, Gctr.Tag, Aad, Be;
    var r := Runs.EncryptedAt(k, Leader, i, p);
    FramedParts(r.nonce, r.ciphertext, r.tag.value);
  }

  lemma FramedParts(nonce: seq<byte>, ciphertext: seq<byte>, tag: seq<byte>)
    requires |nonce| == 8 && |tag| == 16
    ensures PartsOf(Framed(nonce, ciphertext, tag)) == (nonce, ciphertext, tag)
  {
    var payload := Framed(nonce, ciphertext, tag);
    assert payload[..8] == nonce && payload[8..|payload| - 16] == ciphertext && payload[|payload| - 16..] == tag;
  }

  /** And every payload is the frame of its parts. */
  lemma PartsFramed(payload: seq<byte>)
    requires |payload| >= 24
    ensures var (nonce, ciphertext, tag) := PartsOf(payload);
      Framed(nonce, ciphertext, tag) == payload && |nonce| == 8 && |tag| == 16
  {
  }
}
