/** The two parties as objects over their record layers: each call is the transition of `ProtocolSpec` it is named after. */
module MpcTls {
  import opened Bytes
  import opened Parties
  import opened RecordTypes
  import opened RecordLayerSpec
  import opened ProtocolSpec
  import opened RecordLayer
  import Runs = RecordLayerRuns
  import Gctr
  import ValidateTranscript

  datatype TlsError = InvalidState | Handshake | InvalidServerKey | Framing | Layer(error: RecordError) | Transcript(check: ValidateTranscript.TranscriptError) | Disconnected

  datatype PlainMessage = PlainMessage(typ: ContentType, version: nat, payload: seq<byte>)
  datatype OpaqueMessage = OpaqueMessage(typ: ContentType, version: nat, payload: seq<byte>)

  datatype Config = Config(maxSentRecords: nat, maxRecvRecords: nat, maxSent: nat, maxRecvOnline: nat, maxRecv: nat, deferDecryption: bool)

  /** Splits from the back, then from the front; a payload too short for that panics. */
  method OpaqueIntoParts(payload: seq<byte>) returns (r: Result<(seq<byte>, seq<byte>, seq<byte>), TlsError>)
    ensures r.Ok? <==> |payload| >= 24
    ensures r.Ok? ==> r.value == PartsOf(payload) && Framed(r.value.0, r.value.1, r.value.2) == payload
    ensures r.Ok? ==>
      r.value.0 == payload[..8] && r.value.1 == payload[8..|payload| - 16] && r.value.2 == payload[|payload| - 16..]
  {
    if |payload| < 16 { return Err(Framing); }
    var tag := payload[|payload| - 16..];
    var msg := payload[..|payload| - 16];
    if |msg| < 8 { return Err(Framing); }
    var ciphertext := msg[8..];
    var explicitNonce := msg[..8];
    if |explicitNonce| != 8 { return Err(Framing); }
    assert payload == msg + tag && msg == explicitNonce + ciphertext;
    assert ciphertext == payload[8..|payload| - 16] && explicitNonce == payload[..8];
    return Ok((explicitNonce, ciphertext, tag));
  }

  /** The pending operations hold the plaintexts that were pushed last. */
  predicate Pending(ops: seq<EncryptOp>, encs: seq<Runs.EncPush>) {
    && |ops| <= |encs|
    && forall i :: 0 <= i < |ops| ==>
         var input := encs[|encs| - |ops| + i].Input();
         ops[i].plaintext == Some(input) && ops[i].len == |input|
  }

  lemma FlushKeepsOutputs(k: Keys, v: View, isDecrypting: bool, inputs: seq<seq<byte>>)
    requires v.role.Leader? && OutputsKnown(v) && CanFlush(k, v, isDecrypting) && InputsOf(v.encryptBuffer, inputs)
    ensures OutputsKnown(Flushed(k, v, isDecrypting, inputs))
  {
    hide EncryptsFit, DecryptsFit, TagsVerify, SentAll, RecvAll, PaddedTo, SumTo, FirstApplicationData, Remaining, Gctr.Apply, Gctr.Tag;
  }

  lemma CommitKeepsOutputs(k: Keys, v: View)
    requires v.role.Leader? && OutputsKnown(v) && CanCommit(k, v)
    ensures OutputsKnown(Committed(k, v))
  {
    hide TagsVerify, RecvAll, PaddedTo, Gctr.Apply, Decryptable, PublicLens;
  }

  lemma KnownInputs(ops: seq<EncryptOp>, encs: seq<Runs.EncPush>, s: Runs.Session)
    requires s.v.encryptBuffer == ops && s.encs == encs && Pending(ops, encs)
    ensures |ops| <= |encs| && InputsOf(ops, Runs.PendingInputs(s))
    ensures forall i :: 0 <= i < |ops| ==> ops[i].plaintext == Some(Runs.PendingInputs(s)[i])
  {
  }

  lemma FlushEmpties(k: Keys, v: View, isDecrypting: bool, inputs: seq<seq<byte>>)
    requires CanFlush(k, v, isDecrypting) && InputsOf(v.encryptBuffer, inputs)
    ensures Flushed(k, v, isDecrypting, inputs).encryptBuffer == [] && v.phase.Online?
  {
    hide EncryptsFit, DecryptsFit, TagsVerify, SentAll, RecvAll, EncryptedAll, PlainAll, PaddedTo, SumTo, FirstApplicationData, Remaining;
  }

  lemma CommitKeepsPending(k: Keys, v: View)
    requires CanCommit(k, v)
    ensures Committed(k, v).encryptBuffer == []
  {
  }

  lemma PendingGrows(ops: seq<EncryptOp>, encs: seq<Runs.EncPush>, op: EncryptOp, p: Runs.EncPush)
    requires Pending(ops, encs) && op.plaintext == Some(p.Input()) && op.len == |p.Input()|
    ensures Pending(ops + [op], encs + [p])
  {
  }

  lemma OutgoingCall(vm: Vm, l: LeaderState, typ: ContentType, version: nat, plaintext: seq<byte>)
    ensures var c := Call.PushOutgoing(typ, version, plaintext);
      && (CanCall(vm, l, c) <==> Connected(l) && CanPushEncrypt(l.s.v, |plaintext|, Some(plaintext), ModeOf(typ)))
      && (CanCall(vm, l, c) ==>
            && Called(vm, l, c) == l.(s := l.s.(v := PushedEncrypt(l.s.v, typ, version, |plaintext|, Some(plaintext), ModeOf(typ)),
                                                encs := l.s.encs + [EncPushOf(typ, version, plaintext)]))
            && Emitted(vm, l, c) == [Wire(Encrypt(typ, version, |plaintext|, if ModeOf(typ).Private? then None else Some(plaintext), ModeOf(typ)), [])])
  {
    hide CanPushEncrypt, PushedEncrypt;
  }

  lemma DecryptOnly(v: View, typ: ContentType, version: nat, nonce: seq<byte>, ciphertext: seq<byte>, tag: seq<byte>, mode: Mode)
    ensures var w := PushedDecrypt(v, typ, version, nonce, ciphertext, tag, mode);
      w.encryptBuffer == v.encryptBuffer && (OutputsKnown(v) ==> OutputsKnown(w))
  {
  }

  lemma TooShort(vm: Vm, l: LeaderState, typ: ContentType, version: nat, payload: seq<byte>)
    requires |payload| < 24
    ensures !CanCall(vm, l, Call.PushIncoming(typ, version, payload))
  {
  }

  lemma IncomingCall(vm: Vm, l: LeaderState, typ: ContentType, version: nat, payload: seq<byte>)
    requires |payload| >= 24
    ensures var c := Call.PushIncoming(typ, version, payload);
      var (nonce, ciphertext, tag) := PartsOf(payload);
      && (CanCall(vm, l, c) <==> Connected(l) && CanPushDecrypt(l.s.v, ciphertext))
      && (CanCall(vm, l, c) ==>
            && Called(vm, l, c) == l.(s := l.s.(v := PushedDecrypt(l.s.v, typ, version, nonce, ciphertext, tag, ModeOf(typ)),
                                                decs := l.s.decs + [DecPushOf(typ, version, payload)]))
            && Emitted(vm, l, c) == [Wire(Decrypt(typ, version, nonce, ciphertext, tag, ModeOf(typ)), [])])
  {
    hide CanPushDecrypt, PushedDecrypt;
  }

  lemma FlushCall(vm: Vm, l: LeaderState)
    requires |l.s.v.encryptBuffer| <= |l.s.encs| && InputsOf(l.s.v.encryptBuffer, Runs.PendingInputs(l.s))
    ensures var open, idle := l.phase.Active? || l.phase.Closed?, l.phase.Handshake? || !WantsFlush(l.s.v);
      && (CanCall(vm, l, Call.Flush) <==>
            l.phase.Handshake? || (open && (!WantsFlush(l.s.v) || CanFlush(vm.keys, l.s.v, l.isDecrypting))))
      && (CanCall(vm, l, Call.Flush) && idle ==> Called(vm, l, Call.Flush) == l && Emitted(vm, l, Call.Flush) == [])
      && (CanCall(vm, l, Call.Flush) && !idle ==>
            && CanFlush(vm.keys, l.s.v, l.isDecrypting)
            && Called(vm, l, Call.Flush) == l.(s := l.s.(v := Flushed(vm.keys, l.s.v, l.isDecrypting, Runs.PendingInputs(l.s))))
            && Emitted(vm, l, Call.Flush) == [Wire(Message.Flush(l.isDecrypting), Runs.PendingInputs(l.s))])
  {
    hide CanFlush, Flushed, InputsOf, Runs.PendingInputs;
  }

  lemma CloseCall(vm: Vm, l: LeaderState)
    ensures CanCall(vm, l, Call.CloseConnection) <==> l.phase.Active? && CanCommit(vm.keys, l.s.v)
    ensures CanCall(vm, l, Call.CloseConnection) ==>
      && Called(vm, l, Call.CloseConnection)
         == l.(phase := Closed, s := l.s.(v := Committed(vm.keys, l.s.v)), transcript := Some(TranscriptOf(vm.keys, l.s.v)))
      && Emitted(vm, l, Call.CloseConnection) == [Wire(Message.CloseConnection, [])]
  {
    hide CanCommit, Committed, TranscriptOf;
  }

  lemma NextCall(vm: Vm, l: LeaderState, c: Call)
    requires c.NextIncoming? || c.NextOutgoing?
    ensures CanCall(vm, l, c) <==> Connected(l) || l.phase.Closed?
    ensures CanCall(vm, l, c) ==>
      && Emitted(vm, l, c) == []
      && Called(vm, l, c) ==
           if c.NextIncoming? then
             if !CanPopDecrypted(l.s.v) then l
             else l.(s := l.s.(v := l.s.v.(decryptedBuffer := l.s.v.decryptedBuffer[1..]), poppedDec := l.s.poppedDec + [l.s.v.decryptedBuffer[0]]))
           else
             if !CanPopEncrypted(l.s.v) then l
             else l.(s := l.s.(v := l.s.v.(encryptedBuffer := l.s.v.encryptedBuffer[1..]), poppedEnc := l.s.poppedEnc + [l.s.v.encryptedBuffer[0]]))
  {
  }

  function PlaintextsOf(ops: seq<EncryptOp>): (r: seq<seq<byte>>)
    requires forall i :: 0 <= i < |ops| ==> ops[i].plaintext.Some?
    ensures |r| == |ops| && forall i :: 0 <= i < |ops| ==> r[i] == ops[i].plaintext.value
  {
    seq(|ops|, i requires 0 <= i < |ops| => ops[i].plaintext.value)
  }

  class MpcTlsLeader {
    const vm: Vm
    const rl: RecordLayer
    const config: Config
    var phase: LeaderPhase
    var isDecrypting: bool
    var prf: PrfPhase
    var version: Option<nat>
    var suite: Option<nat>
    var serverRandom: Option<seq<byte>>
    var certDetails: Option<seq<byte>>
    var serverKey: Option<PublicKey>
    var kxDetails: Option<seq<byte>>
    var transcript: Option<TlsTranscript>
    /** What was sent to the follower. */
    var outbox: seq<Wire>
    ghost var encs: seq<Runs.EncPush>
    ghost var decs: seq<Runs.DecPush>
    ghost var poppedEnc: seq<EncryptedRecord>
    ghost var poppedDec: seq<PlainRecord>
    ghost var cfVd: Option<seq<byte>>
    ghost var sfVd: Option<seq<byte>>

    constructor (vm: Vm, config: Config)
      ensures Valid() && phase.Init? && this.vm == vm && this.config == config && outbox == []
      ensures fresh(rl) && fresh(rl.encrypter) && fresh(rl.decrypter) && fresh(rl.aesCtr)
    {
      this.vm := vm;
      this.config := config;
      rl := new RecordLayer(Leader, vm.keys);
      phase, isDecrypting, prf := LeaderPhase.Init, !config.deferDecryption, SessionKeys;
      version, suite, serverRandom, certDetails, serverKey, kxDetails := None, None, None, None, None, None;
      transcript, outbox := None, [];
      encs, decs, poppedEnc, poppedDec, cfVd, sfVd := [], [], [], [], None, None;
    }

    ghost function L(): LeaderState
      reads this, rl, rl.encrypter, rl.decrypter
    {
      LeaderState(phase, isDecrypting, Runs.Session(rl.V(), encs, decs, poppedEnc, poppedDec), prf,
                  version, suite, serverRandom, certDetails, serverKey, kxDetails, cfVd, sfVd, transcript)
    }

    ghost predicate Valid()
      reads this, rl, rl.encrypter, rl.decrypter, rl.aesCtr
    {
      && rl.Valid() && rl.role.Leader? && rl.keys == vm.keys
      && OutputsKnown(rl.V()) && Pending(rl.V().encryptBuffer, encs)
      && (phase.Init? ==> rl.V() == Initial(Leader) && Unused() && rl.aesCtr.state.Init?)
      && (phase.Setup? ==> LeaderStart(L().(phase := LeaderPhase.Handshake)))
    }

    /** A call succeeds exactly when it can, and then leaves the specified state and messages. An error ends the run. */
    twostate predicate Does(c: Call, ok: bool)
      reads this, rl, rl.encrypter, rl.decrypter, rl.aesCtr
    {
      && (ok <==> CanCall(vm, old(L()), c))
      && (ok ==> Valid() && L() == Called(vm, old(L()), c) && outbox == old(outbox) + Emitted(vm, old(L()), c))
    }

    ghost predicate Unused()
      reads this
    {
      && encs == [] && decs == [] && poppedEnc == [] && poppedDec == []
      && prf.SessionKeys? && serverRandom.None? && serverKey.None? && cfVd.None? && sfVd.None? && transcript.None?
    }

    method Alloc(sentBase: nat, recvBase: nat, otp: seq<byte>, keyOtp: seq<byte>, ivOtp: seq<byte>) returns (r: Result<(), TlsError>)
      requires Valid() && |otp| == config.maxRecvOnline
      modifies this, rl, rl.encrypter, rl.decrypter, rl.aesCtr
      ensures r.Ok? <==> old(phase).Init? && config.maxSent > 0 && config.maxRecvOnline > 0
      ensures r.Ok? ==>
        && Valid() && phase.Setup? && outbox == old(outbox)
        && rl.V() == Allocated(Initial(Leader), sentBase, recvBase, config.maxSentRecords, config.maxRecvRecords,
                               config.maxSent, config.maxRecvOnline, config.maxRecv, otp)
    {
      var was := phase;
      phase := LeaderPhase.Error;
      if !was.Init? { return Err(InvalidState); }
      rl.SetKeys();
      var alloc := rl.Alloc(sentBase, recvBase, config.maxSentRecords, config.maxRecvRecords,
                            config.maxSent, config.maxRecvOnline, config.maxRecv, otp, keyOtp, ivOtp);
      if alloc.Err? { return Err(Layer(alloc.error)); }
      phase := LeaderPhase.Setup;
      return Ok(());
    }

    method Preprocess() returns (r: Result<(), TlsError>)
      requires Valid()
      modifies this
      ensures Valid()
      ensures r.Ok? <==> old(phase).Setup?
      ensures r.Ok? ==> LeaderStart(L()) && L() == old(L()).(phase := LeaderPhase.Handshake) && outbox == old(outbox)
    {
      hide RecordLayer.Valid;
      var was := phase;
      phase := LeaderPhase.Error;
      if !was.Setup? { return Err(InvalidState); }
      phase := LeaderPhase.Handshake;
      return Ok(());
    }

    method SetProtocolVersion(version: nat) returns (r: Result<(), TlsError>)
      requires Valid()
      modifies this
      ensures Does(Call.SetProtocolVersion(version), r.Ok?)
    {
      hide RecordLayer.Valid, RecordLayer.V, LeaderStart, Initial, Unused, OutputsKnown, Pending, Runs.CanStep, Runs.Step, CanPushEncrypt, CanPushDecrypt, CanFlush, Flushed, CanCommit, Committed, TranscriptOf, InputsOf, DecPushOf, PartsOf, WantsFlush;
      if !phase.Handshake? { return Err(InvalidState); }
      this.version := Some(version);
      return Ok(());
    }

    method SetCipherSuite(suite: nat) returns (r: Result<(), TlsError>)
      requires Valid()
      modifies this
      ensures Does(Call.SetCipherSuite(suite), r.Ok?)
    {
      hide RecordLayer.Valid, RecordLayer.V, LeaderStart, Initial, Unused, OutputsKnown, Pending, Runs.CanStep, Runs.Step, CanPushEncrypt, CanPushDecrypt, CanFlush, Flushed, CanCommit, Committed, TranscriptOf, InputsOf, DecPushOf, PartsOf, WantsFlush;
      if !phase.Handshake? { return Err(InvalidState); }
      this.suite := Some(suite);
      return Ok(());
    }

    method SetServerCertDetails(details: seq<byte>) returns (r: Result<(), TlsError>)
      requires Valid()
      modifies this
      ensures Does(Call.SetServerCertDetails(details), r.Ok?)
    {
      hide RecordLayer.Valid, RecordLayer.V, LeaderStart, Initial, Unused, OutputsKnown, Pending, Runs.CanStep, Runs.Step, CanPushEncrypt, CanPushDecrypt, CanFlush, Flushed, CanCommit, Committed, TranscriptOf, InputsOf, DecPushOf, PartsOf, WantsFlush;
      if !phase.Handshake? { return Err(InvalidState); }
      certDetails := Some(details);
      return Ok(());
    }

    method SetServerKxDetails(details: seq<byte>) returns (r: Result<(), TlsError>)
      requires Valid()
      modifies this
      ensures Does(Call.SetServerKxDetails(details), r.Ok?)
    {
      hide RecordLayer.Valid, RecordLayer.V, LeaderStart, Initial, Unused, OutputsKnown, Pending, Runs.CanStep, Runs.Step, CanPushEncrypt, CanPushDecrypt, CanFlush, Flushed, CanCommit, Committed, TranscriptOf, InputsOf, DecPushOf, PartsOf, WantsFlush;
      if !phase.Handshake? { return Err(InvalidState); }
      kxDetails := Some(details);
      return Ok(());
    }

    /** The message is sent before the PRF can refuse. */
    method SetServerRandom(random: seq<byte>) returns (r: Result<(), TlsError>)
      requires Valid()
      modifies this
      ensures Does(Call.SetServerRandom(random), r.Ok?)
    {
      hide RecordLayer.Valid, RecordLayer.V, LeaderStart, Initial, Unused, OutputsKnown, Pending, Runs.CanStep, Runs.Step, CanPushEncrypt, CanPushDecrypt, CanFlush, Flushed, CanCommit, Committed, TranscriptOf, InputsOf, DecPushOf, PartsOf, WantsFlush;
      if !phase.Handshake? { return Err(InvalidState); }
      outbox := outbox + [Wire(Message.SetServerRandom(random), [])];
      if !prf.SessionKeys? { return Err(TlsError.Handshake); }
      prf, serverRandom := ClientFinished, Some(random);
      return Ok(());
    }

    method SetServerKeyShare(key: PublicKey) returns (r: Result<(), TlsError>)
      requires Valid()
      modifies this
      ensures Does(Call.SetServerKeyShare(key), r.Ok?)
    {
      hide RecordLayer.Valid, RecordLayer.V, LeaderStart, Initial, Unused, OutputsKnown, Pending, Runs.CanStep, Runs.Step, CanPushEncrypt, CanPushDecrypt, CanFlush, Flushed, CanCommit, Committed, TranscriptOf, InputsOf, DecPushOf, PartsOf, WantsFlush;
      if !phase.Handshake? { return Err(InvalidState); }
      if key.group != SECP256R1 { return Err(InvalidServerKey); }
      outbox := outbox + [Wire(SetServerKey(key), [])];
      serverKey := Some(key);
      return Ok(());
    }

    method GetClientFinishedVd(hash: seq<byte>) returns (r: Result<seq<byte>, TlsError>)
      requires Valid()
      modifies this
      ensures Does(Call.GetClientFinishedVd(hash), r.Ok?) && (r.Ok? ==> r.value == Vd(vm, Client, hash))
    {
      hide RecordLayer.Valid, RecordLayer.V, LeaderStart, Initial, Unused, OutputsKnown, Pending, Runs.CanStep, Runs.Step, CanPushEncrypt, CanPushDecrypt, CanFlush, Flushed, CanCommit, Committed, TranscriptOf, InputsOf, DecPushOf, PartsOf, WantsFlush;
      if !phase.Active? { return Err(InvalidState); }
      if |hash| != 32 { return Err(TlsError.Handshake); }
      outbox := outbox + [Wire(ClientFinishedVd(hash), [])];
      if !prf.ClientFinished? { return Err(TlsError.Handshake); }
      prf := ServerFinished;
      var vd := Vd(vm, Client, hash);
      cfVd := Some(vd);
      return Ok(vd);
    }

    method GetServerFinishedVd(hash: seq<byte>) returns (r: Result<seq<byte>, TlsError>)
      requires Valid()
      modifies this
      ensures Does(Call.GetServerFinishedVd(hash), r.Ok?) && (r.Ok? ==> r.value == Vd(vm, Server, hash))
    {
      hide RecordLayer.Valid, RecordLayer.V, LeaderStart, Initial, Unused, OutputsKnown, Pending, Runs.CanStep, Runs.Step, CanPushEncrypt, CanPushDecrypt, CanFlush, Flushed, CanCommit, Committed, TranscriptOf, InputsOf, DecPushOf, PartsOf, WantsFlush;
      if !phase.Active? { return Err(InvalidState); }
      if |hash| != 32 { return Err(TlsError.Handshake); }
      outbox := outbox + [Wire(ServerFinishedVd(hash), [])];
      if !prf.ServerFinished? { return Err(TlsError.Handshake); }
      prf := PrfComplete;
      var vd := Vd(vm, Server, hash);
      sfVd := Some(vd);
      return Ok(vd);
    }

    method PrepareEncryption() returns (r: Result<(), TlsError>)
      requires Valid()
      modifies this, rl.encrypter, rl.decrypter
      ensures Does(Call.PrepareEncryption, r.Ok?)
    {
      hide RecordLayer.Valid;
      var was := phase;
      phase := LeaderPhase.Error;
      if !was.Handshake? { return Err(InvalidState); }
      if version.None? || suite.None? || serverRandom.None? || certDetails.None? || serverKey.None? || kxDetails.None? {
        return Err(TlsError.Handshake);
      }
      if !serverKey.value.onCurve { return Err(InvalidServerKey); }
      var setup := rl.Setup();
      if setup.Err? { return Err(Layer(setup.error)); }
      phase := Active;
      return Ok(());
    }

    method PushIncoming(msg: OpaqueMessage) returns (r: Result<(), TlsError>)
      requires Valid()
      modifies this, rl
      ensures Does(Call.PushIncoming(msg.typ, msg.version, msg.payload), r.Ok?)
    {
      hide RecordLayer.Valid, OutputsKnown, RecordLayer.V, LeaderStart, Initial, Unused, CanCall, Called, Emitted, Aad, Be, Pending, CanPushDecrypt, PushedDecrypt, PartsOf, DecPushOf, Framed;
      ghost var l := L();
      if |msg.payload| < 24 {
        TooShort(vm, l, msg.typ, msg.version, msg.payload);
      } else {
        IncomingCall(vm, l, msg.typ, msg.version, msg.payload);
      }
      if !phase.Handshake? && !phase.Active? { return Err(InvalidState); }
      var parts := OpaqueIntoParts(msg.payload);
      if parts.Err? { return Err(parts.error); }
      var (explicitNonce, ciphertext, tag) := parts.value;
      var mode := match msg.typ case ApplicationData => Private case _ => Public;
      ghost var v := rl.V();
      var push := rl.PushDecrypt(msg.typ, msg.version, explicitNonce, ciphertext, tag, mode);
      if push.Err? { return Err(Layer(push.error)); }
      DecryptOnly(v, msg.typ, msg.version, explicitNonce, ciphertext, tag, mode);
      decs := decs + [DecPushOf(msg.typ, msg.version, msg.payload)];
      outbox := outbox + [Wire(Decrypt(msg.typ, msg.version, explicitNonce, ciphertext, tag, mode), [])];
      assert L() == Called(vm, l, Call.PushIncoming(msg.typ, msg.version, msg.payload));
      return Ok(());
    }

    /** The plaintext of a record that leaves the layer is always known. */
    method NextIncoming() returns (r: Result<Option<PlainMessage>, TlsError>)
      requires Valid()
      modifies this, rl
      ensures Does(Call.NextIncoming, r.Ok?)
      ensures r.Ok? ==>
        && (r.value.Some? <==> CanPopDecrypted(old(rl.V())))
        && (r.value.Some? ==>
              var record := old(rl.decryptedBuffer)[0];
              && record.plaintext.Some? && poppedDec == old(poppedDec) + [record]
              && r.value.value == PlainMessage(record.typ, record.version, record.plaintext.value))
    {
      hide RecordLayer.Valid, LeaderStart, Initial, Unused, CanCall, Called, Emitted, Pending;
      NextCall(vm, L(), Call.NextIncoming);
      if !phase.Handshake? && !phase.Active? && !phase.Closed? { return Err(InvalidState); }
      assert rl.decryptedBuffer != [] ==> rl.decryptedBuffer[0].plaintext.Some?;
      var record := rl.NextDecrypted();
      if record.None? { return Ok(None); }
      poppedDec := poppedDec + [record.value];
      return Ok(Some(PlainMessage(record.value.typ, record.value.version, record.value.plaintext.value)));
    }

    method PushOutgoing(msg: PlainMessage) returns (r: Result<(), TlsError>)
      requires Valid()
      modifies this, rl
      ensures Does(Call.PushOutgoing(msg.typ, msg.version, msg.payload), r.Ok?)
    {
      hide RecordLayer.Valid, RecordLayer.V, LeaderStart, Initial, Unused, CanCall, Called, Emitted, Aad, Be;
      OutgoingCall(vm, L(), msg.typ, msg.version, msg.payload);
      if !phase.Handshake? && !phase.Active? { return Err(InvalidState); }
      var mode := match msg.typ case ApplicationData => Private case _ => Public;
      var push := rl.PushEncrypt(msg.typ, msg.version, |msg.payload|, Some(msg.payload), mode);
      if push.Err? { return Err(Layer(push.error)); }
      PendingGrows(old(rl.V()).encryptBuffer, encs, rl.V().encryptBuffer[|old(rl.V()).encryptBuffer|], EncPushOf(msg.typ, msg.version, msg.payload));
      encs := encs + [EncPushOf(msg.typ, msg.version, msg.payload)];
      var shown := match mode case Private => None case Public => Some(msg.payload);
      outbox := outbox + [Wire(Encrypt(msg.typ, msg.version, |msg.payload|, shown, mode), [])];
      return Ok(());
    }

    /** The payload put on the wire: nonce, ciphertext, then the tag, which is always known. */
    method NextOutgoing() returns (r: Result<Option<OpaqueMessage>, TlsError>)
      requires Valid()
      modifies this, rl
      ensures Does(Call.NextOutgoing, r.Ok?)
      ensures r.Ok? ==>
        && (r.value.Some? <==> CanPopEncrypted(old(rl.V())))
        && (r.value.Some? ==>
              var record := old(rl.encryptedBuffer)[0];
              && record.tag.Some? && poppedEnc == old(poppedEnc) + [record]
              && r.value.value == OpaqueMessage(record.typ, record.version, record.nonce + record.ciphertext + record.tag.value))
    {
      hide RecordLayer.Valid, CanCall, Called, Emitted, Pending;
      NextCall(vm, L(), Call.NextOutgoing);
      if !phase.Handshake? && !phase.Active? && !phase.Closed? { return Err(InvalidState); }
      assert rl.encryptedBuffer != [] ==> rl.encryptedBuffer[0].tag.Some?;
      var record := rl.NextEncrypted();
      if record.None? { return Ok(None); }
      poppedEnc := poppedEnc + [record.value];
      var payload := record.value.nonce;
      payload := payload + record.value.ciphertext;
      payload := payload + record.value.tag.value;
      return Ok(Some(OpaqueMessage(record.value.typ, record.value.version, payload)));
    }

    method StartTraffic() returns (r: Result<(), TlsError>)
      requires Valid()
      modifies this, rl
      ensures Does(Call.StartTraffic, r.Ok?)
    {
      hide RecordLayer.Valid, RecordLayer.V, LeaderStart, Initial, Unused, Runs.CanStep, Pending, CanFlush, Flushed, CanCommit, Committed, TranscriptOf, InputsOf, PushedEncrypt, PushedDecrypt, CanPushEncrypt;
      if !phase.Active? { return Err(InvalidState); }
      rl.StartTraffic();
      outbox := outbox + [Wire(Message.StartTraffic, [])];
      return Ok(());
    }

    /** Skipped before encryption is prepared, and when nothing is pending. */
    method Flush() returns (r: Result<(), TlsError>)
      requires Valid()
      modifies this, rl, rl.encrypter, rl.decrypter
      ensures Does(Call.Flush, r.Ok?)
    {
      hide RecordLayer.Valid, CanCall, Called, Emitted, CanFlush, Flushed, OutputsKnown;
      KnownInputs(rl.encryptBuffer, encs, L().s);
      FlushCall(vm, L());
      match phase {
        case Handshake => return Ok(());
        case Active =>
        case Closed =>
        case _ => return Err(InvalidState);
      }
      if !rl.WantsFlush() { return Ok(()); }
      var inputs := PlaintextsOf(rl.encryptBuffer);
      assert inputs == Runs.PendingInputs(L().s);
      outbox := outbox + [Wire(Message.Flush(isDecrypting), inputs)];
      if CanFlush(vm.keys, rl.V(), isDecrypting) {
        FlushKeepsOutputs(vm.keys, rl.V(), isDecrypting, inputs);
        FlushEmpties(vm.keys, rl.V(), isDecrypting, inputs);
      }
      var flush, _ := rl.Flush(isDecrypting, inputs);
      if flush.Err? { return Err(Layer(flush.error)); }
      return Ok(());
    }

    method CloseConnection() returns (r: Result<(), TlsError>)
      requires Valid()
      modifies this, rl, rl.decrypter, rl.aesCtr
      ensures Does(Call.CloseConnection, r.Ok?)
    {
      hide RecordLayer.Valid, RecordLayer.V, LeaderStart, Initial, Unused, CanCall, Called, Emitted, CanCommit, Committed, TranscriptOf, OutputsKnown;
      CloseCall(vm, L());
      var was := phase;
      phase := LeaderPhase.Error;
      if !was.Active? { return Err(InvalidState); }
      outbox := outbox + [Wire(Message.CloseConnection, [])];
      var commit := CommitLayer();
      if commit.Err? { return Err(commit.error); }
      transcript := Some(commit.value);
      phase := Closed;
      return Ok(());
    }

    /** Nothing stays pending, and what is queued stays complete. */
    method CommitLayer() returns (r: Result<TlsTranscript, TlsError>)
      requires rl.Valid() && rl.role.Leader? && rl.keys == vm.keys && OutputsKnown(rl.V())
      modifies rl, rl.decrypter, rl.aesCtr
      ensures rl.Valid()
      ensures r.Ok? <==> CanCommit(vm.keys, old(rl.V()))
      ensures r.Ok? ==> rl.V() == Committed(vm.keys, old(rl.V())) && r.value == TranscriptOf(vm.keys, old(rl.V()))
      ensures r.Ok? ==> rl.V().encryptBuffer == [] && OutputsKnown(rl.V())
    {
      hide RecordLayer.Valid, CanCommit, Committed, TranscriptOf, OutputsKnown;
      if CanCommit(vm.keys, rl.V()) {
        CommitKeepsOutputs(vm.keys, rl.V());
        CommitKeepsPending(vm.keys, rl.V());
      }
      var commit := rl.Commit();
      if commit.Err? { return Err(Layer(commit.error)); }
      return Ok(commit.value);
    }

    method DeferDecryption() returns (r: Result<(), TlsError>)
      requires Valid()
      modifies this
      ensures Does(Call.DeferDecryption, r.Ok?)
    {
      hide RecordLayer.Valid, RecordLayer.V, OutputsKnown, Pending, Runs.CanStep, Runs.Step, CanPushEncrypt, CanPushDecrypt, CanFlush, Flushed, CanCommit, Committed, TranscriptOf, InputsOf, DecPushOf, PartsOf, WantsFlush;
      isDecrypting := false;
      return Ok(());
    }
  }

  datatype FollowerData = FollowerData(serverKey: PublicKey, transcript: TlsTranscript)

  class MpcTlsFollower {
    const vm: Vm
    const rl: RecordLayer
    var prf: PrfPhase
    var serverRandom: Option<seq<byte>>
    var serverKey: Option<PublicKey>
    var cfVd: Option<seq<byte>>
    var sfVd: Option<seq<byte>>

    constructor (vm: Vm)
      ensures Valid() && this.vm == vm && rl.V() == Initial(Follower)
      ensures prf.SessionKeys? && serverRandom.None? && serverKey.None? && cfVd.None? && sfVd.None?
      ensures fresh(rl) && fresh(rl.encrypter) && fresh(rl.decrypter) && fresh(rl.aesCtr)
    {
      this.vm := vm;
      rl := new RecordLayer(Follower, vm.keys);
      prf, serverRandom, serverKey, cfVd, sfVd := SessionKeys, None, None, None, None;
    }

    ghost function F(): FollowerState
      reads this, rl, rl.encrypter, rl.decrypter
    {
      FollowerState(rl.V(), prf, serverRandom, serverKey, cfVd, sfVd, None)
    }

    ghost predicate Valid()
      reads this, rl, rl.encrypter, rl.decrypter, rl.aesCtr
    {
      && rl.Valid() && rl.role.Follower? && rl.keys == vm.keys
      && (cfVd.Some? ==> |cfVd.value| == 12) && (sfVd.Some? ==> |sfVd.value| == 12)
    }

    /** The follower allocates the same resources; it draws no pads. */
    method Alloc(config: Config, sentBase: nat, recvBase: nat) returns (r: Result<(), TlsError>)
      requires Valid() && rl.V() == Initial(Follower) && rl.aesCtr.state.Init?
      requires prf.SessionKeys? && serverRandom.None? && serverKey.None? && cfVd.None? && sfVd.None?
      modifies rl, rl.encrypter, rl.decrypter, rl.aesCtr
      ensures r.Ok? <==> config.maxSent > 0 && config.maxRecvOnline > 0
      ensures r.Ok? ==> Valid() && FollowerStart(F())
      ensures r.Ok? ==> rl.V() == Allocated(Initial(Follower), sentBase, recvBase, config.maxSentRecords, config.maxRecvRecords,
                                            config.maxSent, config.maxRecvOnline, config.maxRecv, [])
    {
      rl.SetKeys();
      var noPad: seq<byte> := seq(config.maxRecvOnline, _ => 0);
      var alloc := rl.Alloc(sentBase, recvBase, config.maxSentRecords, config.maxRecvRecords,
                            config.maxSent, config.maxRecvOnline, config.maxRecv, noPad, [], []);
      if alloc.Err? { return Err(Layer(alloc.error)); }
      return Ok(());
    }

    /** One message other than the close. */
    method Receive(w: Wire) returns (r: Result<(), TlsError>)
      requires Valid() && !w.msg.CloseConnection?
      modifies this, rl, rl.encrypter, rl.decrypter
      ensures r.Ok? <==> CanReceive(vm, old(F()), w)
      ensures r.Ok? ==> Valid() && F() == Received(vm, old(F()), w)
    {
      hide RecordLayer.Valid, CanFlush, Flushed, InputsOf, CanPushEncrypt, CanPushDecrypt, PushedEncrypt, PushedDecrypt;
      match w.msg {
        case SetServerRandom(random) =>
          if serverRandom.Some? || !prf.SessionKeys? { return Err(TlsError.Handshake); }
          prf, serverRandom := ClientFinished, Some(random);
        case SetServerKey(key) =>
          if serverKey.Some? { return Err(TlsError.Handshake); }
          if key.group != SECP256R1 || !key.onCurve { return Err(InvalidServerKey); }
          serverKey := Some(key);
          var setup := rl.Setup();
          if setup.Err? { return Err(Layer(setup.error)); }
        case ClientFinishedVd(hash) =>
          if cfVd.Some? || !prf.ClientFinished? { return Err(TlsError.Handshake); }
          prf, cfVd := ServerFinished, Some(Vd(vm, Client, hash));
        case ServerFinishedVd(hash) =>
          if sfVd.Some? || !prf.ServerFinished? { return Err(TlsError.Handshake); }
          prf, sfVd := PrfComplete, Some(Vd(vm, Server, hash));
        case Encrypt(typ, version, len, plaintext, mode) =>
          var push := rl.PushEncrypt(typ, version, len, plaintext, mode);
          if push.Err? { return Err(Layer(push.error)); }
        case Decrypt(typ, version, nonce, ciphertext, tag, mode) =>
          var push := rl.PushDecrypt(typ, version, nonce, ciphertext, tag, mode);
          if push.Err? { return Err(Layer(push.error)); }
        case StartTraffic =>
          rl.StartTraffic();
        case Flush(isDecrypting) =>
          // The VM only runs when both parties feed it matching inputs.
          if !InputsOf(rl.encryptBuffer, w.inputs) { return Err(InvalidState); }
          var flush, _ := rl.Flush(isDecrypting, w.inputs);
          if flush.Err? { return Err(Layer(flush.error)); }
      }
      return Ok(());
    }

    /** Commits after the close, then requires everything the handshake should have provided. */
    method Finish(ghost w: Wire) returns (r: Result<FollowerData, TlsError>)
      requires Valid() && w.msg.CloseConnection?
      modifies rl, rl.decrypter, rl.aesCtr
      ensures r.Ok? <==> CanReceive(vm, old(F()), w) && Accepts(Received(vm, old(F()), w))
      ensures r.Ok? ==>
        var f := Received(vm, old(F()), w);
        r.value == FollowerData(f.serverKey.value, f.transcript.value)
    {
      hide CanCommit, Committed, TranscriptOf, ValidateTranscript.IsSession;
      var commit := rl.Commit();
      if commit.Err? { return Err(Layer(commit.error)); }
      if serverKey.None? || cfVd.None? || sfVd.None? { return Err(TlsError.Handshake); }
      var check := ValidateTranscript.ValidateTranscript(cfVd.value, sfVd.value, commit.value);
      if check.Err? { return Err(TlsError.Transcript(check.error)); }
      return Ok(FollowerData(serverKey.value, commit.value));
    }

    /** The message loop. */
    method Run(inbox: seq<Wire>) returns (r: Result<FollowerData, TlsError>)
      requires Valid()
      modifies this, rl, rl.encrypter, rl.decrypter, rl.aesCtr
      ensures var run := FollowerRun(vm, old(F()), inbox);
        && (r.Ok? <==> run.Some? && Accepts(run.value))
        && (r.Ok? ==> r.value == FollowerData(run.value.serverKey.value, run.value.transcript.value))
    {
      hide CanReceive, Received;
      ghost var f0 := F();
      var i := 0;
      while true
        invariant Valid() && i <= |inbox|
        invariant FollowerRun(vm, F(), inbox[i..]) == FollowerRun(vm, f0, inbox)
        decreases |inbox| - i
      {
        if i == |inbox| { return Err(Disconnected); }
        ghost var rest := inbox[i..];
        assert rest[0] == inbox[i] && rest[1..] == inbox[i + 1..];
        if inbox[i].msg.CloseConnection? { break; }
        ghost var f := F();
        var step := Receive(inbox[i]);
        if step.Err? { return Err(step.error); }
        i := i + 1;
      }
      ghost var f, w := F(), inbox[i];
      ClosesRun(vm, f, inbox[i..]);
      r := Finish(w);
    }
  }

  lemma ClosesRun(vm: Vm, f: FollowerState, wires: seq<Wire>)
    requires f.transcript.None? && wires != [] && wires[0].msg.CloseConnection?
    ensures FollowerRun(vm, f, wires) == if CanReceive(vm, f, wires[0]) then Some(Received(vm, f, wires[0])) else None
  {
    hide CanCommit, Committed, TranscriptOf;
  }
}
