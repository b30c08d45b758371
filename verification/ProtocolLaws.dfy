/**
 * What the two parties' calls and messages do, written out: what the leader's TLS client is
 * handed and what goes on the wire over a whole run, and when each call and message is taken.
 */
module ProtocolLaws {
  import opened Bytes
  import opened Parties
  import opened RecordTypes
  import opened RecordLayerSpec
  import opened ProtocolSpec
  import opened ProtocolTheorems
  import opened Erasure
  import Runs = RecordLayerRuns
  import Theorems = RecordLayerTheorems
  import Laws = RecordLayerLaws
  import Gctr
  import ValidateTranscript

  // ---- What the calls hand out ----

  /** A TLS message a call is given or hands out. */
  datatype Content = Content(typ: ContentType, version: nat, payload: seq<byte>)

  /** The messages given to push_incoming, in order. */
  function PushedIn(calls: seq<Call>): seq<Content> {
    if calls == [] then []
    else (if calls[0].PushIncoming? then [Content(calls[0].typ, calls[0].version, calls[0].payload)] else []) + PushedIn(calls[1..])
  }

  /** The messages given to push_outgoing, in order. */
  function PushedOut(calls: seq<Call>): seq<Content> {
    if calls == [] then []
    else (if calls[0].PushOutgoing? then [Content(calls[0].typ, calls[0].version, calls[0].plaintext)] else []) + PushedOut(calls[1..])
  }

  /** The messages next_incoming hands out: the front of the queue, when it may leave. */
  function Delivered(vm: Vm, l: LeaderState, calls: seq<Call>): seq<Content>
    requires LeaderRun(vm, l, calls).Some?
    decreases |calls|
  {
    if calls == [] then []
    else HandedIn(l, calls[0]) + Delivered(vm, Called(vm, l, calls[0]), calls[1..])
  }

  function HandedIn(l: LeaderState, c: Call): seq<Content> {
    if c.NextIncoming? && l.s.v.decryptedBuffer != [] && (l.s.v.started || l.s.v.decryptedBuffer[0].typ != ApplicationData) then
      var r := l.s.v.decryptedBuffer[0];
      [Content(r.typ, r.version, if r.plaintext.Some? then r.plaintext.value else [])]
    else []
  }

  /** The messages next_outgoing hands out for the wire: explicit nonce, ciphertext, tag. */
  function Emissions(vm: Vm, l: LeaderState, calls: seq<Call>): seq<Content>
    requires LeaderRun(vm, l, calls).Some?
    decreases |calls|
  {
    if calls == [] then []
    else HandedOut(l, calls[0]) + Emissions(vm, Called(vm, l, calls[0]), calls[1..])
  }

  function HandedOut(l: LeaderState, c: Call): seq<Content> {
    if c.NextOutgoing? && l.s.v.encryptedBuffer != [] && (l.s.v.started || l.s.v.encryptedBuffer[0].typ != ApplicationData) then
      var r := l.s.v.encryptedBuffer[0];
      [Content(r.typ, r.version, r.nonce + r.ciphertext + (if r.tag.Some? then r.tag.value else []))]
    else []
  }

  function InOf(r: PlainRecord): Content {
    Content(r.typ, r.version, if r.plaintext.Some? then r.plaintext.value else [])
  }

  function OutOf(r: EncryptedRecord): Content {
    Content(r.typ, r.version, r.nonce + r.ciphertext + (if r.tag.Some? then r.tag.value else []))
  }

  ghost predicate Tracks(vm: Vm, l: LeaderState, calls: seq<Call>, end: LeaderState) {
    && LeaderRun(vm, l, calls).Some?
    && |end.s.poppedDec| == |l.s.poppedDec| + |Delivered(vm, l, calls)|
    && (forall i :: 0 <= i < |Delivered(vm, l, calls)| ==> Delivered(vm, l, calls)[i] == InOf(end.s.poppedDec[|l.s.poppedDec| + i]))
    && |end.s.poppedEnc| == |l.s.poppedEnc| + |Emissions(vm, l, calls)|
    && (forall i :: 0 <= i < |Emissions(vm, l, calls)| ==> Emissions(vm, l, calls)[i] == OutOf(end.s.poppedEnc[|l.s.poppedEnc| + i]))
    && l.s.poppedDec <= end.s.poppedDec && l.s.poppedEnc <= end.s.poppedEnc
  }

  /** One call pops exactly what it hands out. */
  lemma CallPops(vm: Vm, l: LeaderState, c: Call)
    requires CanCall(vm, l, c)
    ensures Called(vm, l, c).s.poppedDec == l.s.poppedDec + (if HandedIn(l, c) != [] then [l.s.v.decryptedBuffer[0]] else [])
    ensures Called(vm, l, c).s.poppedEnc == l.s.poppedEnc + (if HandedOut(l, c) != [] then [l.s.v.encryptedBuffer[0]] else [])
    ensures |HandedIn(l, c)| <= 1 && |HandedOut(l, c)| <= 1
    ensures HandedIn(l, c) != [] ==> HandedIn(l, c) == [InOf(l.s.v.decryptedBuffer[0])]
    ensures HandedOut(l, c) != [] ==> HandedOut(l, c) == [OutOf(l.s.v.encryptedBuffer[0])]
  {
    hide CanFlush, Flushed, CanCommit, Committed, TranscriptOf, InputsOf, Aad, Be, EncPushOf, DecPushOf;
  }

  lemma TracksStep(vm: Vm, l: LeaderState, calls: seq<Call>, end: LeaderState)
    requires calls != [] && LeaderRun(vm, l, calls).Some? && CanCall(vm, l, calls[0]) && Tracks(vm, Called(vm, l, calls[0]), calls[1..], end)
    ensures Tracks(vm, l, calls, end)
  {
    hide CanCall, Called, Emitted, HandedIn, HandedOut, InOf, OutOf, LeaderRun;
    CallPops(vm, l, calls[0]);
    var m := Called(vm, l, calls[0]);
    assert Delivered(vm, l, calls) == HandedIn(l, calls[0]) + Delivered(vm, m, calls[1..]);
    assert Emissions(vm, l, calls) == HandedOut(l, calls[0]) + Emissions(vm, m, calls[1..]);
    if HandedIn(l, calls[0]) != [] {
      assert end.s.poppedDec[|l.s.poppedDec|] == m.s.poppedDec[|l.s.poppedDec|];
    }
    if HandedOut(l, calls[0]) != [] {
      assert end.s.poppedEnc[|l.s.poppedEnc|] == m.s.poppedEnc[|l.s.poppedEnc|];
    }
  }

  lemma {:induction false} RunTracks(vm: Vm, l: LeaderState, calls: seq<Call>)
    requires LeaderRun(vm, l, calls).Some?
    ensures Tracks(vm, l, calls, LeaderRun(vm, l, calls).value.0)
    decreases |calls|
  {
    hide CanCall, Called, Emitted, HandedIn, HandedOut;
    if calls != [] {
      RunTracks(vm, Called(vm, l, calls[0]), calls[1..]);
      TracksStep(vm, l, calls, LeaderRun(vm, l, calls).value.0);
    }
  }

  /** The operation a payload is parsed into: eight bytes of nonce, the ciphertext, sixteen bytes of tag. */
  predicate Parsed(c: Content, p: Runs.DecPush) {
    && |c.payload| >= 24
    && p == Runs.DecPush(c.typ, c.version, c.payload[..8], c.payload[8..|c.payload| - 16], c.payload[|c.payload| - 16..],
                         if c.typ == ApplicationData then Private else Public)
  }

  lemma OneIncoming(vm: Vm, l: LeaderState, c: Call)
    requires CanCall(vm, l, c)
    ensures |IncomingOf(c)| == if c.PushIncoming? then 1 else 0
    ensures c.PushIncoming? ==> Parsed(Content(c.typ, c.version, c.payload), IncomingOf(c)[0])
  {
    hide Runs.CanStep, CanCommit;
  }

  /** Pushes in the record layer, in terms of the messages. */
  lemma {:induction false} IncomingIs(vm: Vm, l: LeaderState, calls: seq<Call>)
    requires LeaderRun(vm, l, calls).Some?
    ensures |Incoming(calls)| == |PushedIn(calls)|
    ensures forall i :: 0 <= i < |PushedIn(calls)| ==> Parsed(PushedIn(calls)[i], Incoming(calls)[i])
    decreases |calls|
  {
    hide CanCall, Called, Emitted, Parsed, IncomingOf;
    if calls != [] {
      OneIncoming(vm, l, calls[0]);
      IncomingIs(vm, Called(vm, l, calls[0]), calls[1..]);
    }
  }

  lemma {:induction false} OutgoingIs(calls: seq<Call>)
    ensures |Outgoing(calls)| == |PushedOut(calls)|
    ensures forall i :: 0 <= i < |PushedOut(calls)| ==>
      var c := PushedOut(calls)[i];
      Outgoing(calls)[i] == Runs.EncPush(c.typ, c.version, |c.payload|, Some(c.payload), [], if c.typ == ApplicationData then Private else Public)
    decreases |calls|
  {
    if calls != [] {
      OutgoingIs(calls[1..]);
    }
  }

  /** What was popped by a leader, online or closed, in terms of its pushes. */
  lemma PoppedByInv(vm: Vm, v0: View, l: LeaderState)
    requires LeaderInv(vm, v0, l)
    ensures |l.s.poppedDec| <= |l.s.decs| && |l.s.poppedEnc| <= |l.s.encs|
    ensures forall i :: 0 <= i < |l.s.poppedDec| ==> l.s.poppedDec[i] == Runs.PlainAt(vm.keys.server, Leader, i, l.s.decs[i])
    ensures forall i :: 0 <= i < |l.s.poppedEnc| ==> l.s.poppedEnc[i] == Runs.EncryptedAt(vm.keys.client, Leader, i, l.s.encs[i])
  {
    hide Runs.PlainAt, Runs.EncryptedAt, Runs.SentAt, Runs.RecvAt, PaddedTo, SumTo, Remaining, Runs.Fresh, WellModed, LeaderUsage, Theorems.SentTranscript,
         Theorems.RecvTranscript, OutputsKnown, Runs.Held, Theorems.Charged;
    forall i | 0 <= i < |l.s.poppedDec|
      ensures i < |l.s.decs| && l.s.poppedDec[i] == Runs.PlainAt(vm.keys.server, Leader, i, l.s.decs[i])
    {
      assert l.s.poppedDec[i] == (l.s.poppedDec + l.s.v.decryptedBuffer)[i];
    }
    forall i | 0 <= i < |l.s.poppedEnc|
      ensures i < |l.s.encs| && l.s.poppedEnc[i] == Runs.EncryptedAt(vm.keys.client, Leader, i, l.s.encs[i])
    {
      assert l.s.poppedEnc[i] == (l.s.poppedEnc + l.s.v.encryptedBuffer)[i];
    }
  }

  lemma PlainContent(k: Gctr.Key, i: nat, c: Content, p: Runs.DecPush)
    requires |c.payload| >= 24 && p.typ == c.typ && p.version == c.version
    requires p.nonce == c.payload[..8] && p.ciphertext == c.payload[8..|c.payload| - 16]
    ensures InOf(Runs.PlainAt(k, Leader, i, p)) == Content(c.typ, c.version, Gctr.Apply(k, c.payload[..8], c.payload[8..|c.payload| - 16]))
  {
    hide Gctr.Apply, Aad;
  }

  lemma EncryptedContent(k: Gctr.Key, i: nat, c: Content, p: Runs.EncPush)
    requires p.typ == c.typ && p.version == c.version && p.len == |c.payload| && p.plaintext == Some(c.payload)
    ensures var ciphertext := Gctr.Apply(k, Be(i, 8), c.payload);
      OutOf(Runs.EncryptedAt(k, Leader, i, p))
      == Content(c.typ, c.version, Be(i, 8) + ciphertext + Gctr.Tag(k, Be(i, 8), Aad(i, c.typ, c.version, |c.payload|), ciphertext))
  {
    hide Gctr.Apply, Gctr.Tag, Aad, Be;
  }

  /**
   * On every run of the leader, the `i`-th message next_incoming hands out is the GCTR decryption
   * of the ciphertext in the `i`-th payload pushed, under the nonce in front of it.
   */
  lemma DeliversPlaintext(vm: Vm, l0: LeaderState, calls: seq<Call>, i: nat)
    requires LeaderStart(l0) && LeaderRun(vm, l0, calls).Some? && i < |Delivered(vm, l0, calls)|
    ensures i < |PushedIn(calls)| && |PushedIn(calls)[i].payload| >= 24
    ensures var c := PushedIn(calls)[i];
      Delivered(vm, l0, calls)[i]
      == Content(c.typ, c.version, Gctr.Apply(vm.keys.server, c.payload[..8], c.payload[8..|c.payload| - 16]))
  {
    hide LeaderRun, Delivered, Emissions, PushedIn, Incoming, Outgoing, LeaderInv, Gctr.Apply, Aad, InOf, Runs.PlainAt;
    LeaderStarts(vm, l0);
    LeaderRunInv(vm, l0.s.v, l0, calls);
    LeaderHistory(vm, l0, calls);
    RunTracks(vm, l0, calls);
    var l := LeaderRun(vm, l0, calls).value.0;
    PoppedByInv(vm, l0.s.v, l);
    IncomingIs(vm, l0, calls);
    assert l0.s.poppedDec == [] && l.s.decs == Incoming(calls);
    assert Delivered(vm, l0, calls)[i] == InOf(l.s.poppedDec[i]);
    PlainContent(vm.keys.server, i, PushedIn(calls)[i], Incoming(calls)[i]);
  }

  /**
   * On every run of the leader, the `i`-th message next_outgoing hands out is on the wire: the
   * number `i` as nonce, the GCTR encryption of the `i`-th plaintext pushed, and its own tag.
   */
  lemma EmitsCiphertext(vm: Vm, l0: LeaderState, calls: seq<Call>, i: nat)
    requires LeaderStart(l0) && LeaderRun(vm, l0, calls).Some? && i < |Emissions(vm, l0, calls)|
    ensures i < |PushedOut(calls)|
    ensures var c := PushedOut(calls)[i];
      var ciphertext := Gctr.Apply(vm.keys.client, Be(i, 8), c.payload);
      Emissions(vm, l0, calls)[i]
      == Content(c.typ, c.version, Be(i, 8) + ciphertext
                                   + Gctr.Tag(vm.keys.client, Be(i, 8), Aad(i, c.typ, c.version, |c.payload|), ciphertext))
  {
    hide LeaderRun, Delivered, Emissions, PushedOut, Incoming, Outgoing, LeaderInv, Gctr.Apply, Gctr.Tag, Aad, Be, OutOf, Runs.EncryptedAt;
    LeaderStarts(vm, l0);
    LeaderRunInv(vm, l0.s.v, l0, calls);
    LeaderHistory(vm, l0, calls);
    RunTracks(vm, l0, calls);
    var l := LeaderRun(vm, l0, calls).value.0;
    PoppedByInv(vm, l0.s.v, l);
    OutgoingIs(calls);
    assert l0.s.poppedEnc == [] && l.s.encs == Outgoing(calls);
    assert Emissions(vm, l0, calls)[i] == OutOf(l.s.poppedEnc[i]);
    EncryptedContent(vm.keys.client, i, PushedOut(calls)[i], Outgoing(calls)[i]);
  }

  // ---- When calls and messages are taken ----

  /** The phase and inputs every call of the leader requires. */
  lemma CallsAccepted(vm: Vm, l: LeaderState, n: nat, bytes: seq<byte>, key: PublicKey)
    ensures CanCall(vm, l, SetProtocolVersion(n)) <==> l.phase.Handshake?
    ensures CanCall(vm, l, SetCipherSuite(n)) <==> l.phase.Handshake?
    ensures CanCall(vm, l, SetServerCertDetails(bytes)) <==> l.phase.Handshake?
    ensures CanCall(vm, l, SetServerKxDetails(bytes)) <==> l.phase.Handshake?
    ensures CanCall(vm, l, Call.SetServerRandom(bytes)) <==> l.phase.Handshake? && l.prf.SessionKeys?
    ensures CanCall(vm, l, SetServerKeyShare(key)) <==> l.phase.Handshake? && key.group == 23
    ensures CanCall(vm, l, PrepareEncryption) <==>
      && l.phase.Handshake? && l.version.Some? && l.suite.Some? && l.serverRandom.Some? && l.certDetails.Some?
      && l.kxDetails.Some? && l.serverKey.Some? && l.serverKey.value.onCurve
      && l.s.v.enc.phase.Awaiting? && l.s.v.dec.phase.Awaiting?
    ensures CanCall(vm, l, GetClientFinishedVd(bytes)) <==> l.phase.Active? && |bytes| == 32 && l.prf.ClientFinished?
    ensures CanCall(vm, l, GetServerFinishedVd(bytes)) <==> l.phase.Active? && |bytes| == 32 && l.prf.ServerFinished?
    ensures CanCall(vm, l, NextIncoming) <==> l.phase.Handshake? || l.phase.Active? || l.phase.Closed?
    ensures CanCall(vm, l, NextOutgoing) <==> l.phase.Handshake? || l.phase.Active? || l.phase.Closed?
    ensures CanCall(vm, l, Call.StartTraffic) <==> l.phase.Active?
    ensures CanCall(vm, l, DeferDecryption)
  {
    hide Runs.CanStep, CanCommit;
  }

  /** If accepted, the call leaves this state and sends these messages. */
  predicate Effect(vm: Vm, l: LeaderState, c: Call, after: LeaderState, sent: seq<Wire>) {
    CanCall(vm, l, c) ==> Called(vm, l, c) == after && Emitted(vm, l, c) == sent
  }

  /** What each of them changes, and what it tells the follower. */
  lemma SettersDo(vm: Vm, l: LeaderState, n: nat, bytes: seq<byte>, key: PublicKey)
    ensures Effect(vm, l, SetProtocolVersion(n), l.(version := Some(n)), [])
    ensures Effect(vm, l, SetCipherSuite(n), l.(suite := Some(n)), [])
    ensures Effect(vm, l, SetServerCertDetails(bytes), l.(certDetails := Some(bytes)), [])
    ensures Effect(vm, l, SetServerKxDetails(bytes), l.(kxDetails := Some(bytes)), [])
    ensures Effect(vm, l, Call.SetServerRandom(bytes), l.(serverRandom := Some(bytes), prf := ClientFinished), [Wire(Message.SetServerRandom(bytes), [])])
    ensures Effect(vm, l, SetServerKeyShare(key), l.(serverKey := Some(key)), [Wire(SetServerKey(key), [])])
  {
    hide Runs.CanStep, Runs.Step, CanCommit, Committed, TranscriptOf;
  }

  lemma HandshakeDoes(vm: Vm, l: LeaderState, bytes: seq<byte>)
    ensures Effect(vm, l, GetClientFinishedVd(bytes), l.(cfVd := Some(Vd(vm, Client, bytes)), prf := ServerFinished), [Wire(ClientFinishedVd(bytes), [])])
    ensures Effect(vm, l, GetServerFinishedVd(bytes), l.(sfVd := Some(Vd(vm, Server, bytes)), prf := PrfComplete), [Wire(ServerFinishedVd(bytes), [])])
    ensures Effect(vm, l, Call.StartTraffic, l.(s := l.s.(v := l.s.v.(started := true))), [Wire(Message.StartTraffic, [])])
    ensures Effect(vm, l, PrepareEncryption,
                   l.(phase := Active, s := l.s.(v := l.s.v.(enc := l.s.v.enc.(phase := Ready), dec := l.s.v.dec.(phase := Ready)))), [])
    ensures Effect(vm, l, DeferDecryption, l.(isDecrypting := false), [])
  {
    hide CanFlush, InputsOf, CanPushEncrypt, CanPushDecrypt, CanCommit;
  }

  /** What the follower is told of a record: the parts of what was received, and of what is sent all but private bytes. */
  lemma PushesTell(vm: Vm, l: LeaderState, typ: ContentType, version: nat, bytes: seq<byte>)
    ensures CanCall(vm, l, PushIncoming(typ, version, bytes)) ==>
      && (l.phase.Handshake? || l.phase.Active?) && |bytes| >= 24
      && Emitted(vm, l, PushIncoming(typ, version, bytes))
         == [Wire(Decrypt(typ, version, bytes[..8], bytes[8..|bytes| - 16], bytes[|bytes| - 16..],
                          if typ == ApplicationData then Private else Public), [])]
    ensures CanCall(vm, l, PushOutgoing(typ, version, bytes)) ==>
      && (l.phase.Handshake? || l.phase.Active?)
      && Emitted(vm, l, PushOutgoing(typ, version, bytes))
         == [if typ == ApplicationData then Wire(Encrypt(typ, version, |bytes|, None, Private), [])
             else Wire(Encrypt(typ, version, |bytes|, Some(bytes), Public), [])]
  {
    hide Runs.CanStep;
  }

  /** A flush does nothing before encryption is prepared or with both buffers empty; else it flushes, with the current flag, and says so. */
  lemma FlushDoes(vm: Vm, l: LeaderState)
    ensures l.phase.Handshake? ==> CanCall(vm, l, Call.Flush)
    ensures CanCall(vm, l, Call.Flush) ==> l.phase.Handshake? || l.phase.Active? || l.phase.Closed?
    ensures (l.phase.Active? || l.phase.Closed?) && l.s.v.encryptBuffer == [] && l.s.v.decryptBuffer == [] ==> CanCall(vm, l, Call.Flush)
    ensures l.phase.Handshake? || (l.s.v.encryptBuffer == [] && l.s.v.decryptBuffer == []) ==> Effect(vm, l, Call.Flush, l, [])
    ensures CanCall(vm, l, Call.Flush) && !l.phase.Handshake? && (l.s.v.encryptBuffer != [] || l.s.v.decryptBuffer != []) ==>
      && |l.s.v.encryptBuffer| <= |l.s.encs|
      && CanFlush(vm.keys, l.s.v, l.isDecrypting) && InputsOf(l.s.v.encryptBuffer, Runs.PendingInputs(l.s))
      && Called(vm, l, Call.Flush) == l.(s := l.s.(v := Flushed(vm.keys, l.s.v, l.isDecrypting, Runs.PendingInputs(l.s))))
      && Emitted(vm, l, Call.Flush) == [Wire(Message.Flush(l.isDecrypting), Runs.PendingInputs(l.s))]
  {
    hide CanFlush, Flushed, InputsOf, CanCommit, Runs.PendingInputs;
  }

  /** Every message's guard at the follower: nothing twice, the PRF's order, keys that parse, the layer's own conditions. */
  lemma MessagesAccepted(vm: Vm, f: FollowerState, inputs: seq<seq<byte>>, bytes: seq<byte>, key: PublicKey,
                         typ: ContentType, n: nat, plaintext: Option<seq<byte>>, tag: seq<byte>, mode: Mode)
    ensures CanReceive(vm, f, Wire(Message.SetServerRandom(bytes), inputs)) <==> f.serverRandom.None? && f.prf.SessionKeys?
    ensures CanReceive(vm, f, Wire(SetServerKey(key), inputs)) <==>
      f.serverKey.None? && key.group == 23 && key.onCurve && f.v.enc.phase.Awaiting? && f.v.dec.phase.Awaiting?
    ensures CanReceive(vm, f, Wire(ClientFinishedVd(bytes), inputs)) <==> f.cfVd.None? && f.prf.ClientFinished?
    ensures CanReceive(vm, f, Wire(ServerFinishedVd(bytes), inputs)) <==> f.sfVd.None? && f.prf.ServerFinished?
    ensures CanReceive(vm, f, Wire(Encrypt(typ, n, n, plaintext, mode), inputs)) <==>
      && |f.v.encryptBuffer| < 1022 && f.v.sent + n <= f.v.maxSent
      && (plaintext.Some? ==> |plaintext.value| == n) && (mode.Public? ==> plaintext.Some?)
    ensures CanReceive(vm, f, Wire(Decrypt(typ, n, tag, bytes, tag, mode), inputs)) <==>
      |f.v.decryptBuffer| < 1022 && f.v.recv + |bytes| <= f.v.maxRecv
    ensures CanReceive(vm, f, Wire(Message.StartTraffic, inputs))
  {
  }

  /** What the follower requires of a connection it accepts. */
  lemma AcceptsWhen(f: FollowerState)
    ensures Accepts(f) ==>
      && f.transcript.Some? && f.serverKey.Some? && f.cfVd.Some? && f.sfVd.Some?
      && var (sent, recv) := (f.transcript.value.sent, f.transcript.value.recv);
      && sent != [] && sent[0].plaintext.Some? && [20, 0, 0, 12] + f.cfVd.value <= sent[0].plaintext.value
      && recv != [] && recv[0].plaintext.Some? && [20, 0, 0, 12] + f.sfVd.value <= recv[0].plaintext.value
      && (forall i :: 1 <= i < |sent| - 1 ==> sent[i].typ == ApplicationData)
      && (forall i :: 1 <= i < |recv| - 1 ==> recv[i].typ == ApplicationData)
  {
    hide ValidateTranscript.IsSession;
    if Accepts(f) {
      ValidateTranscript.SessionWhen(f.cfVd.value, f.transcript.value.sent);
      ValidateTranscript.SessionWhen(f.sfVd.value, f.transcript.value.recv);
    }
  }

  /** What each handshake message leaves behind. */
  lemma MessagesDo(vm: Vm, f: FollowerState, inputs: seq<seq<byte>>, bytes: seq<byte>, key: PublicKey)
    ensures var w := Wire(Message.SetServerRandom(bytes), inputs);
      CanReceive(vm, f, w) ==> Received(vm, f, w) == f.(serverRandom := Some(bytes), prf := ClientFinished)
    ensures var w := Wire(SetServerKey(key), inputs);
      CanReceive(vm, f, w) ==>
        Received(vm, f, w) == f.(serverKey := Some(key), v := f.v.(enc := f.v.enc.(phase := Ready), dec := f.v.dec.(phase := Ready)))
    ensures var w := Wire(ClientFinishedVd(bytes), inputs);
      CanReceive(vm, f, w) ==> Received(vm, f, w) == f.(cfVd := Some(Vd(vm, Client, bytes)), prf := ServerFinished)
    ensures var w := Wire(ServerFinishedVd(bytes), inputs);
      CanReceive(vm, f, w) ==> Received(vm, f, w) == f.(sfVd := Some(Vd(vm, Server, bytes)), prf := PrfComplete)
    ensures Received(vm, f, Wire(Message.StartTraffic, inputs)) == f.(v := f.v.(started := true))
  {
  }
}
