/** The record layer object: each method is the transition of `RecordLayerSpec` it is named after. */
module RecordLayer {
  import opened Bytes
  import opened Parties
  import opened RecordTypes
  import opened RecordLayerSpec
  import opened MpcAesGcm
  import opened RecordOps
  import Gctr
  import LocalAes

  datatype RecordError = WrongState | BufferFull | Quota | Op(op: OpError)

  // ---- Collecting the results of a flush ----

  /** `tags` as computed: one per operation for the leader, none for the follower or an empty batch. */
  predicate TagsOf(k: Gctr.Key, role: Role, ops: seq<EncryptOp>, inputs: seq<seq<byte>>, tags: Option<seq<seq<byte>>>) {
    && |inputs| == |ops|
    && (tags.Some? <==> ops != [] && role.Leader?)
    && (tags.Some? ==> |tags.value| == |ops| &&
                       forall i :: 0 <= i < |ops| ==> EncryptedOf(k, role, ops[i], inputs[i]).tag == Some(tags.value[i]))
  }

  function Reversed<T>(s: seq<T>): (r: seq<T>)
    ensures |r| == |s| && forall i :: 0 <= i < |s| ==> r[i] == s[|s| - 1 - i]
  {
    seq(|s|, i requires 0 <= i < |s| => s[|s| - 1 - i])
  }

  lemma CiphertextAgrees(k: Gctr.Key, op: EncryptOp, input: seq<byte>, text: Slice)
    requires |input| == op.len
    ensures var out := PendingEncryptOf(k, op, input, text).output;
      && (out.EncryptPublic? ==> |out.keystream| == |out.plaintext|)
      && (if out.EncryptPrivate? then out.ciphertext else XorInto(out.plaintext, out.keystream)) == Gctr.Apply(k, op.nonce, input)
    ensures PendingEncryptOf(k, op, input, text).plaintextRef == if op.mode.Private? then Some(text) else None
  {
  }

  /** Pops tags from the back of the reversed list, so each record gets its own. */
  method CollectEncrypted(k: Gctr.Key, role: Role, ghost a: Aead, ops: seq<EncryptOp>, ghost inputs: seq<seq<byte>>,
                          pending: seq<PendingEncrypt>, computed: Option<seq<seq<byte>>>)
    returns (encrypted: seq<EncryptedRecord>, records: seq<Record>)
    requires InputsOf(ops, inputs) && SumPadded(EncLens(ops)) <= a.left
    requires EncryptedAs(k, a, ops, inputs, pending) && TagsOf(k, role, ops, inputs, computed)
    ensures encrypted == EncryptedAll(k, role, ops, inputs)
    ensures records == SentAll(k, a, ops, inputs)
  {
    hide Gctr.Apply, Gctr.Tag, PaddedTo, Padded, PendingEncryptOf;
    encrypted, records := [], [];
    var tags := if computed.Some? then Some(Reversed(computed.value)) else None;
    for i := 0 to |ops|
      invariant |encrypted| == |records| == i
      invariant tags.Some? <==> computed.Some?
      invariant tags.Some? ==> tags.value == Reversed(computed.value)[..|ops| - i]
      invariant forall j :: 0 <= j < i ==> encrypted[j] == EncryptedAll(k, role, ops, inputs)[j]
      invariant forall j :: 0 <= j < i ==> records[j] == SentAll(k, a, ops, inputs)[j]
    {
      var op := ops[i];
      assert PendingAt(k, a, EncLens(ops), i, op, inputs[i], pending[i]);
      CiphertextAgrees(k, op, inputs[i], TextRef(a, EncLens(ops), i));
      var ciphertext := pending[i].output.TryEncrypt();
      var tag: Option<seq<byte>> := None;
      if tags.Some? {
        tag := Some(tags.value[|tags.value| - 1]);
        tags := Some(tags.value[..|tags.value| - 1]);
      }
      encrypted := encrypted + [EncryptedRecord(op.typ, op.version, op.nonce, ciphertext.value, tag)];
      records := records + [Record(op.seqNo, op.typ, op.plaintext, pending[i].plaintextRef, op.nonce, ciphertext.value)];
    }
  }

  method CollectDecrypted(k: Gctr.Key, role: Role, ops: seq<DecryptOp>, outputs: seq<DecryptOutput>)
    returns (plain: seq<PlainRecord>, records: seq<Record>)
    requires DecryptedAs(k, role, ops, outputs)
    ensures plain == PlainAll(k, role, ops)
    ensures records == RecvAll(k, role, ops)
  {
    hide Gctr.Apply, PlaintextOf;
    plain, records := [], [];
    for i := 0 to |ops|
      invariant |plain| == |records| == i
      invariant forall j :: 0 <= j < i ==> plain[j] == PlainRecordOf(k, role, ops[j])
      invariant forall j :: 0 <= j < i ==> records[j] == RecvRecordOf(k, role, ops[j])
    {
      var op := ops[i];
      var plaintext := outputs[i].TryDecrypt();
      YieldsOnce(outputs[i], plaintext.value, PlaintextOf(k, role, op));
      plain := plain + [PlainRecord(op.typ, op.version, plaintext.value)];
      records := records + [Record(op.seqNo, op.typ, plaintext.value, None, op.nonce, op.ciphertext)];
    }
  }

  lemma FitsWhen(k: Gctr.Key, ops: seq<EncryptOp>, inputs: seq<seq<byte>>, t: ComputeTags)
    requires InputsOf(ops, inputs) && TagInputs(k, ops, inputs, t.data, t.ciphertexts)
    ensures t.Fits() <==> forall i :: 0 <= i < |ops| ==> GhashFits(|ops[i].aad|, ops[i].len)
  {
    hide GhashFits, Gctr.Apply;
    assert forall i :: 0 <= i < |ops| ==> TagInput(k, ops[i], inputs[i], t.data[i], t.ciphertexts[i]);
    assert forall i :: 0 <= i < |ops| ==> |t.data[i].aad| == |ops[i].aad| && |t.ciphertexts[i]| == ops[i].len;
  }

  lemma TagsFollow(k: Gctr.Key, ops: seq<EncryptOp>, inputs: seq<seq<byte>>, t: ComputeTags, tags: Option<seq<seq<byte>>>)
    requires TagInputs(k, ops, inputs, t.data, t.ciphertexts)
    requires tags.Some? <==> t.data != [] && t.role.Leader?
    requires tags.Some? ==> |tags.value| == |t.data|
    requires tags.Some? ==> forall i :: 0 <= i < |t.data| ==> tags.value[i] == Gctr.Tag(k, t.data[i].nonce, t.data[i].aad, t.ciphertexts[i])
    ensures TagsOf(k, t.role, ops, inputs, tags)
  {
    hide Gctr.Apply, Gctr.Tag;
    if tags.Some? {
      forall i | 0 <= i < |ops|
        ensures EncryptedOf(k, t.role, ops[i], inputs[i]).tag == Some(tags.value[i])
      {
        assert TagInput(k, ops[i], inputs[i], t.data[i], t.ciphertexts[i]);
      }
    }
  }

  lemma NoncesWhen(a: Aead, otp: Option<seq<byte>>, ops: seq<DecryptOp>)
    requires DecryptsFit(a, otp, ops)
    ensures forall i :: 0 <= i < |ops| ==> |ops[i].nonce| == 8
  {
    assert forall i :: 0 <= i < |ops| ==> Decryptable(ops[i]);
  }

  /** Encrypts one batch, decrypts another in MPC, computes and verifies their tags. */
  method RunBatch(role: Role, encrypter: MpcAesGcm, decrypter: MpcAesGcm, recvOtp: Option<seq<byte>>,
                  encryptOps: seq<EncryptOp>, inputs: seq<seq<byte>>, decryptOps: seq<DecryptOp>)
    returns (ok: bool, error: OpError, otp: Option<seq<byte>>,
             encrypted: seq<EncryptedRecord>, sentRecords: seq<Record>,
             plain: seq<PlainRecord>, recvRecords: seq<Record>, ghost masks: seq<Option<seq<byte>>>)
    requires encrypter != decrypter && encrypter.role == decrypter.role == role
    requires recvOtp.Some? <==> role.Leader?
    requires InputsOf(encryptOps, inputs)
    modifies encrypter, decrypter
    ensures ok <==>
      && EncryptsFit(old(encrypter.A()), encryptOps)
      && DecryptsFit(old(decrypter.A()), recvOtp, decryptOps)
      && TagsVerify(decrypter.k, old(decrypter.A()), decryptOps)
    ensures ok ==>
      && encrypter.A() == old(encrypter.A()).(left := old(encrypter.left) - SumPadded(EncLens(encryptOps)), j0s := old(encrypter.j0s) - |encryptOps|)
      && decrypter.A() == old(decrypter.A()).(left := old(decrypter.left) - SumPadded(DecLens(decryptOps)), j0s := old(decrypter.j0s) - |decryptOps|)
      && otp == Remaining(recvOtp, Sum(PrivateLens(decryptOps))) && (otp.Some? <==> recvOtp.Some?)
    ensures ok ==>
      && encrypted == EncryptedAll(encrypter.k, role, encryptOps, inputs)
      && sentRecords == SentAll(encrypter.k, old(encrypter.A()), encryptOps, inputs)
      && plain == PlainAll(decrypter.k, role, decryptOps)
      && recvRecords == RecvAll(decrypter.k, role, decryptOps)
      && MasksOf(recvOtp, decryptOps, masks)
  {
    hide MasksOf, EncryptedAll, SentAll, PlainAll, RecvAll, EncryptedAs, DecryptedAs, TagInputs, Queued, TagsOf,
         SumPadded, Sum, DecLens, EncLens, PrivateLens, Gctr.Tag, GhashFits, Decryptable, Encryptable;
    ok, otp, encrypted, sentRecords, plain, recvRecords, masks := false, None, [], [], [], [], [];
    ghost var a := encrypter.A();
    var enc := Encrypt(encrypter, encryptOps, inputs);
    if enc.Err? { error := enc.error; return; }
    var pendingDecrypt;
    ok, pendingDecrypt, otp, error := DecryptMpc(decrypter, recvOtp, decryptOps);
    if !ok { return; }
    masks := MasksIn(pendingDecrypt);
    NoncesWhen(old(decrypter.A()), recvOtp, decryptOps);
    ok := false;
    var verify := VerifyTagsOf(decrypter, decryptOps);
    if verify.Err? { error := verify.error; return; }

    FitsWhen(encrypter.k, encryptOps, inputs, enc.value.1);
    var tags := enc.value.1.Run();
    if tags.Err? { error := Cipher(tags.error); return; }
    var verified := RunVerify(decryptOps, verify.value);
    if verified.Err? { error := verified.error; return; }

    TagsFollow(encrypter.k, encryptOps, inputs, enc.value.1, tags.value);
    encrypted, sentRecords := CollectEncrypted(encrypter.k, role, a, encryptOps, inputs, enc.value.0, tags.value);
    plain, recvRecords := CollectDecrypted(decrypter.k, role, decryptOps, pendingDecrypt);
    ok := true;
  }

  /** The text, keystream, pad and masks for two batches are there, and the tags verify. */
  predicate CanProcess(k: Keys, v: View, eops: seq<EncryptOp>, dops: seq<DecryptOp>) {
    v.phase.Online? && EncryptsFit(v.enc, eops) && DecryptsFit(v.dec, v.phase.recvOtp, dops) && TagsVerify(k.server, v.dec, dops)
  }

  /** The state after two batches have been processed. */
  function Processed(k: Keys, v: View, eops: seq<EncryptOp>, inputs: seq<seq<byte>>, dops: seq<DecryptOp>): View
    requires CanProcess(k, v, eops, dops) && |inputs| == |eops|
  {
    v.(enc := v.enc.(left := v.enc.left - SumPadded(EncLens(eops)), j0s := v.enc.j0s - |eops|),
       dec := v.dec.(left := v.dec.left - SumPadded(DecLens(dops)), j0s := v.dec.j0s - |dops|),
       encryptedBuffer := v.encryptedBuffer + EncryptedAll(k.client, v.role, eops, inputs),
       decryptedBuffer := v.decryptedBuffer + PlainAll(k.server, v.role, dops),
       phase := Online(Remaining(v.phase.recvOtp, Sum(PrivateLens(dops))),
                       v.phase.sentRecords + SentAll(k.client, v.enc, eops, inputs),
                       v.phase.recvRecords + RecvAll(k.server, v.role, dops)))
  }

  /** What a flush takes out of the buffers, and what it charges for it. */
  function Drained(v: View, isDecrypting: bool): View {
    var n := FlushCount(v, isDecrypting);
    v.(encryptBuffer := [], decryptBuffer := v.decryptBuffer[n..],
       recvOnline := v.recvOnline + if isDecrypting then Sum(DecLens(v.decryptBuffer[..n])) else 0)
  }

  /** A flush with work to do drains the buffers, then processes what it drained. */
  lemma FlushedInTwo(k: Keys, v: View, isDecrypting: bool, inputs: seq<seq<byte>>)
    requires v.phase.Online? && InputsOf(v.encryptBuffer, inputs)
    requires var n := FlushCount(v, isDecrypting); v.encryptBuffer != [] || v.decryptBuffer[..n] != []
    ensures var dops := v.decryptBuffer[..FlushCount(v, isDecrypting)];
      && (CanFlush(k, v, isDecrypting) <==>
            && (isDecrypting ==> v.recvOnline + Sum(DecLens(dops)) <= v.maxRecvOnline)
            && CanProcess(k, Drained(v, isDecrypting), v.encryptBuffer, dops))
      && (CanFlush(k, v, isDecrypting) ==>
            Flushed(k, v, isDecrypting, inputs) == Processed(k, Drained(v, isDecrypting), v.encryptBuffer, inputs, dops))
  {
    hide EncryptsFit, DecryptsFit, TagsVerify, EncryptedAll, SentAll, PlainAll, RecvAll, SumPadded, Sum, FirstApplicationData,
         DecLens, EncLens, PrivateLens, Remaining;
  }

  lemma OfflineCannot(k: Keys, v: View, isDecrypting: bool)
    requires !v.phase.Online?
    ensures !CanFlush(k, v, isDecrypting)
  {
  }

  lemma FlushedIdle(k: Keys, v: View, isDecrypting: bool, inputs: seq<seq<byte>>)
    requires InputsOf(v.encryptBuffer, inputs) && v.encryptBuffer == [] && v.decryptBuffer[..FlushCount(v, isDecrypting)] == []
    ensures CanFlush(k, v, isDecrypting) <==> v.phase.Online?
    ensures v.phase.Online? ==> Flushed(k, v, isDecrypting, inputs) == v
    ensures FlushCount(v, isDecrypting) == 0
  {
  }

  class RecordLayer {
    const role: Role
    const keys: Keys
    const encrypter: MpcAesGcm
    const decrypter: MpcAesGcm
    const aesCtr: LocalAes.AesCtr

    var writeSeq: nat
    var readSeq: nat
    var phase: Phase
    var started: bool
    var sent: nat
    var recvOnline: nat
    var recv: nat
    var maxSent: nat
    var maxRecvOnline: nat
    var maxRecv: nat
    var encryptBuffer: seq<EncryptOp>
    var decryptBuffer: seq<DecryptOp>
    var encryptedBuffer: seq<EncryptedRecord>
    var decryptedBuffer: seq<PlainRecord>

    constructor (role: Role, keys: Keys)
      ensures Valid() && fresh(encrypter) && fresh(decrypter) && fresh(aesCtr)
      ensures this.role == role && this.keys == keys
      ensures V() == Initial(role) && !encrypter.keyed && !decrypter.keyed && aesCtr.state.Init?
    {
      this.role := role;
      this.keys := keys;
      encrypter := new MpcAesGcm(role, keys.client);
      decrypter := new MpcAesGcm(role, keys.server);
      aesCtr := new LocalAes.AesCtr(role, keys.server);
      writeSeq, readSeq, phase, started := 0, 0, Init, false;
      sent, recvOnline, recv, maxSent, maxRecvOnline, maxRecv := 0, 0, 0, 0, 0, 0;
      encryptBuffer, decryptBuffer, encryptedBuffer, decryptedBuffer := [], [], [], [];
    }

    function V(): View
      reads this, encrypter, decrypter
    {
      View(role, writeSeq, readSeq, encrypter.A(), decrypter.A(), phase, started,
           sent, recvOnline, recv, maxSent, maxRecvOnline, maxRecv,
           encryptBuffer, decryptBuffer, encryptedBuffer, decryptedBuffer)
    }

    ghost predicate Valid()
      reads this, encrypter, decrypter, aesCtr
    {
      && encrypter != decrypter
      && encrypter.role == decrypter.role == aesCtr.role == role
      && encrypter.k == keys.client && decrypter.k == keys.server && aesCtr.k == keys.server
      && aesCtr.Valid()
      && (phase.Init? ==> aesCtr.state.Init?)
      && (phase.Online? ==> aesCtr.state.Alloc? && (phase.recvOtp.Some? <==> role.Leader?))
    }

    method SetKeys()
      requires Valid()
      modifies encrypter, decrypter, aesCtr
      ensures Valid() && V() == old(V()) && encrypter.keyed && decrypter.keyed
      ensures aesCtr.keyRef.Some? && aesCtr.ivRef.Some? && aesCtr.state == old(aesCtr.state)
    {
      encrypter.SetKey();
      decrypter.SetKey();
      aesCtr.SetKey();
    }

    predicate Keyed()
      reads encrypter, decrypter, aesCtr
    {
      encrypter.keyed && decrypter.keyed && aesCtr.keyRef.Some? && aesCtr.ivRef.Some?
    }

    /** `sentBase`, `recvBase`: where the VM puts the texts; the pads are the caller's random bytes. */
    method Alloc(sentBase: nat, recvBase: nat, sentRecords: nat, recvRecords: nat,
                 sentLen: nat, recvLenOnline: nat, recvLen: nat,
                 otp: seq<byte>, keyOtp: seq<byte>, ivOtp: seq<byte>)
      returns (r: Result<(), RecordError>)
      requires Valid() && |otp| == recvLenOnline
      modifies this, encrypter, decrypter, aesCtr
      ensures Valid()
      ensures r.Ok? <==> CanAlloc(old(V()), sentLen, recvLenOnline) && old(Keyed())
      ensures r.Ok? ==> V() == Allocated(old(V()), sentBase, recvBase, sentRecords, recvRecords, sentLen, recvLenOnline, recvLen, otp)
    {
      hide LocalAes.AesCtr.Valid, Padded, Keyed;
      var was := phase;
      phase := Error;
      if !was.Init? { return Err(WrongState); }
      var ciphers := AllocCiphers(sentBase, recvBase, sentRecords, recvRecords, sentLen, recvLenOnline, keyOtp, ivOtp);
      if ciphers.Err? { return Err(ciphers.error); }
      maxSent, maxRecvOnline, maxRecv := maxSent + sentLen, maxRecvOnline + recvLenOnline, maxRecv + recvLen;
      phase := Online(if role.Leader? then Some(otp) else None, [], []);
      return Ok(());
    }

    /** Both AEADs, then the local decrypter. */
    method AllocCiphers(sentBase: nat, recvBase: nat, sentRecords: nat, recvRecords: nat,
                        sentLen: nat, recvLenOnline: nat, keyOtp: seq<byte>, ivOtp: seq<byte>)
      returns (r: Result<(), RecordError>)
      requires encrypter != decrypter && aesCtr.Valid() && aesCtr.state.Init?
      modifies encrypter, decrypter, aesCtr
      ensures aesCtr.Valid()
      ensures r.Ok? <==> old(encrypter.phase).Unallocated? && old(decrypter.phase).Unallocated? && sentLen > 0 && recvLenOnline > 0 && old(Keyed())
      ensures r.Ok? ==>
        && encrypter.A() == Aead(Awaiting, sentBase, Padded(sentLen), sentRecords)
        && decrypter.A() == Aead(Awaiting, recvBase, Padded(recvLenOnline), recvRecords)
        && aesCtr.state.Alloc?
    {
      hide LocalAes.AesCtr.Valid, Padded;
      var enc := encrypter.Alloc(sentBase, sentRecords, sentLen);
      if enc.Err? { return Err(Op(Cipher(enc.error))); }
      var dec := decrypter.Alloc(recvBase, recvRecords, recvLenOnline);
      if dec.Err? { return Err(Op(Cipher(dec.error))); }
      var aes := aesCtr.Alloc(keyOtp, ivOtp);
      if aes.Err? { return Err(Op(Local(aes.error))); }
      return Ok(());
    }

    method Setup() returns (r: Result<(), RecordError>)
      requires Valid()
      modifies encrypter, decrypter
      ensures Valid()
      ensures r.Ok? <==> CanSetup(old(V()))
      ensures r.Ok? ==> V() == ReadyToFlush(old(V()))
    {
      var enc := encrypter.Setup();
      if enc.Err? { return Err(Op(Cipher(enc.error))); }
      var dec := decrypter.Setup();
      if dec.Err? { return Err(Op(Cipher(dec.error))); }
      return Ok(());
    }

    predicate WantsFlush()
      reads this
    {
      encryptBuffer != [] || decryptBuffer != []
    }

    method StartTraffic()
      requires Valid()
      modifies this
      ensures Valid() && V() == old(V()).(started := true)
    {
      started := true;
    }

    method PushEncrypt(typ: ContentType, version: nat, len: nat, plaintext: Option<seq<byte>>, mode: Mode)
      returns (r: Result<(), RecordError>)
      requires Valid()
      modifies this
      ensures Valid()
      ensures r.Ok? <==> CanPushEncrypt(old(V()), len, plaintext, mode)
      ensures r.Ok? ==> V() == PushedEncrypt(old(V()), typ, version, len, plaintext, mode)
    {
      hide LocalAes.AesCtr.Valid, Aad, Be;
      if |encryptBuffer| >= MAX_BUFFER_SIZE { return Err(BufferFull); }
      if sent + len > maxSent { return Err(Quota); }
      var seqNo, nonce, aad := NextWrite(typ, version, len);
      sent := sent + len;
      if plaintext.Some? && |plaintext.value| != len { return Err(Op(LengthMismatch)); }
      if mode.Public? && plaintext.None? { return Err(Op(MissingPlaintext)); }
      encryptBuffer := encryptBuffer + [EncryptOp(seqNo, typ, version, len, plaintext, nonce, aad, mode)];
      return Ok(());
    }

    method PushDecrypt(typ: ContentType, version: nat, nonce: seq<byte>, ciphertext: seq<byte>, tag: seq<byte>, mode: Mode)
      returns (r: Result<(), RecordError>)
      requires Valid()
      modifies this
      ensures Valid()
      ensures r.Ok? <==> CanPushDecrypt(old(V()), ciphertext)
      ensures r.Ok? ==> V() == PushedDecrypt(old(V()), typ, version, nonce, ciphertext, tag, mode)
    {
      if |decryptBuffer| >= MAX_BUFFER_SIZE { return Err(BufferFull); }
      if recv + |ciphertext| > maxRecv { return Err(Quota); }
      var seqNo, aad := NextRead(typ, version, |ciphertext|);
      recv := recv + |ciphertext|;
      decryptBuffer := decryptBuffer + [DecryptOp(seqNo, typ, version, nonce, ciphertext, aad, tag, mode)];
      return Ok(());
    }

    method NextWrite(typ: ContentType, version: nat, len: nat) returns (seqNo: nat, nonce: seq<byte>, aad: seq<byte>)
      requires Valid()
      modifies this`writeSeq
      ensures Valid() && V() == old(V()).(writeSeq := seqNo + 1) && seqNo == old(writeSeq)
      ensures nonce == Be(seqNo, 8) && aad == Aad(seqNo, typ, version, len)
    {
      seqNo := writeSeq;
      writeSeq := writeSeq + 1;
      nonce, aad := Be(seqNo, 8), Aad(seqNo, typ, version, len);
    }

    method NextRead(typ: ContentType, version: nat, len: nat) returns (seqNo: nat, aad: seq<byte>)
      requires Valid()
      modifies this`readSeq
      ensures Valid() && V() == old(V()).(readSeq := seqNo + 1) && seqNo == old(readSeq)
      ensures aad == Aad(seqNo, typ, version, len)
    {
      seqNo := readSeq;
      readSeq := readSeq + 1;
      aad := Aad(seqNo, typ, version, len);
    }

    method NextEncrypted() returns (r: Option<EncryptedRecord>)
      requires Valid()
      modifies this`encryptedBuffer
      ensures Valid()
      ensures r.Some? <==> CanPopEncrypted(old(V()))
      ensures r.Some? ==> [r.value] + encryptedBuffer == old(encryptedBuffer)
      ensures V() == old(V()).(encryptedBuffer := if r.Some? then old(encryptedBuffer)[1..] else old(encryptedBuffer))
    {
      if encryptedBuffer == [] { return None; }
      if !started && encryptedBuffer[0].typ == ApplicationData { return None; }
      r := Some(encryptedBuffer[0]);
      encryptedBuffer := encryptedBuffer[1..];
    }

    method NextDecrypted() returns (r: Option<PlainRecord>)
      requires Valid()
      modifies this`decryptedBuffer
      ensures Valid()
      ensures r.Some? <==> CanPopDecrypted(old(V()))
      ensures r.Some? ==> [r.value] + decryptedBuffer == old(decryptedBuffer)
      ensures V() == old(V()).(decryptedBuffer := if r.Some? then old(decryptedBuffer)[1..] else old(decryptedBuffer))
    {
      if decryptedBuffer == [] { return None; }
      if !started && decryptedBuffer[0].typ == ApplicationData { return None; }
      r := Some(decryptedBuffer[0]);
      decryptedBuffer := decryptedBuffer[1..];
    }
  
    /**
     * Processes the pending operations. `inputs` are the plaintexts the shared VM holds for
     * them; everything else is computed from this party's own state. `masks` records what hid
     * each decrypted record's keystream from the other party.
     */
    method Flush(isDecrypting: bool, inputs: seq<seq<byte>>) returns (r: Result<(), RecordError>, ghost masks: seq<Option<seq<byte>>>)
      requires Valid() && InputsOf(encryptBuffer, inputs)
      modifies this, encrypter, decrypter
      ensures Valid()
      ensures r.Ok? <==> CanFlush(keys, old(V()), isDecrypting)
      ensures r.Ok? ==> V() == Flushed(keys, old(V()), isDecrypting, inputs)
      ensures r.Ok? ==> FlushMasks(old(V()), isDecrypting, masks)
    {
      hide MaskedBy, LocalAes.AesCtr.Valid, CanFlush, Flushed, CanProcess, Processed, Sum, DecLens, FirstApplicationData;
      ghost var v := V();
      masks := [];
      if !phase.Online? {
        OfflineCannot(keys, v, isDecrypting);
        r := Err(WrongState);
        return;
      }
      var encryptOps := encryptBuffer;
      encryptBuffer := [];
      var n := if isDecrypting then |decryptBuffer| else FirstApplicationData(decryptBuffer);
      var decryptOps := decryptBuffer[..n];
      decryptBuffer := decryptBuffer[n..];
      if encryptOps == [] && decryptOps == [] {
        FlushedIdle(keys, v, isDecrypting, inputs);
        r := Ok(());
        return;
      }

      FlushedInTwo(keys, v, isDecrypting, inputs);
      if isDecrypting {
        var decryptLen := Sum(DecLens(decryptOps));
        if recvOnline + decryptLen > maxRecvOnline {
          r := Err(Quota);
          return;
        }
        recvOnline := recvOnline + decryptLen;
      }
      assert V() == Drained(v, isDecrypting);
      r, masks := Process(encryptOps, inputs, decryptOps);
    }

    /** Runs the two batches and queues their results. */
    method Process(encryptOps: seq<EncryptOp>, inputs: seq<seq<byte>>, decryptOps: seq<DecryptOp>)
      returns (r: Result<(), RecordError>, ghost masks: seq<Option<seq<byte>>>)
      requires Valid() && phase.Online? && InputsOf(encryptOps, inputs)
      modifies this, encrypter, decrypter
      ensures Valid()
      ensures r.Ok? <==> CanProcess(keys, old(V()), encryptOps, decryptOps)
      ensures r.Ok? ==> V() == Processed(keys, old(V()), encryptOps, inputs, decryptOps)
      ensures r.Ok? ==> MasksOf(old(phase).recvOtp, decryptOps, masks)
    {
      hide MasksOf, EncryptsFit, DecryptsFit, TagsVerify, EncryptedAll, SentAll, PlainAll, RecvAll,
           SumPadded, Sum, DecLens, EncLens, PrivateLens, Remaining;
      var ok, error, otp, encrypted, sentRecords, plain, recvRecords;
      ok, error, otp, encrypted, sentRecords, plain, recvRecords, masks :=
        RunBatch(role, encrypter, decrypter, phase.recvOtp, encryptOps, inputs, decryptOps);
      if !ok {
        r := Err(Op(error));
        return;
      }
      encryptedBuffer := encryptedBuffer + encrypted;
      decryptedBuffer := decryptedBuffer + plain;
      phase := Online(otp, phase.sentRecords + sentRecords, phase.recvRecords + recvRecords);
      r := Ok(());
    }

    /**
     * Ends the session: verifies the tags of what is still pending, reveals the server key to
     * the leader and decrypts the rest. `keyOtp`, `ivOtp` were drawn at allocation.
     */
    method Commit() returns (r: Result<TlsTranscript, RecordError>)
      requires Valid()
      modifies this, decrypter, aesCtr
      ensures Valid()
      ensures r.Ok? <==> CanCommit(keys, old(V()))
      ensures r.Ok? ==> V() == Committed(keys, old(V())) && r.value == TranscriptOf(keys, old(V()))
    {
      hide LocalAes.AesCtr.Valid, TagsVerify, Decryptable, PlainAll, RecvAll, SumPadded, PublicLens, CanCommit, Committed, TranscriptOf;
      ghost var v := V();
      CommitParts(keys, v);
      var was := phase;
      phase := Error;
      if !was.Online? { return Err(WrongState); }
      if encryptBuffer != [] { return Err(WrongState); }
      var ops := decryptBuffer;
      decryptBuffer := [];
      var verified := VerifyPending(decrypter, ops);
      if verified.Err? { return Err(Op(verified.error)); }
      var ok, plain, recvRecords, error := DecryptRest(ops);
      if !ok { return Err(Op(error)); }
      decryptedBuffer := decryptedBuffer + plain;
      phase := Complete;
      return Ok(TlsTranscript(was.sentRecords, was.recvRecords + recvRecords));
    }

    /** Reveals the server key to the leader, who decrypts private records with it; public ones are decrypted in MPC. */
    method DecryptRest(ops: seq<DecryptOp>) returns (ok: bool, plain: seq<PlainRecord>, records: seq<Record>, error: OpError)
      requires encrypter.role == decrypter.role == aesCtr.role == role && decrypter.k == aesCtr.k == keys.server
      requires aesCtr.Valid() && aesCtr.state.Alloc? && decrypter.phase.Ready? && forall i :: 0 <= i < |ops| ==> |ops[i].nonce| == 8
      modifies decrypter, aesCtr
      ensures aesCtr.Valid() && aesCtr.state.Ready? && decrypter.keyed == old(decrypter.keyed)
      ensures ok <==> SumPadded(PublicLens(ops)) <= old(decrypter.left) && forall i :: 0 <= i < |ops| ==> Decryptable(ops[i])
      ensures ok ==>
        && decrypter.A() == old(decrypter.A()).(left := old(decrypter.left) - SumPadded(PublicLens(ops)))
        && plain == PlainAll(keys.server, role, ops) && records == RecvAll(keys.server, role, ops)
    {
      hide Decryptable, PlainAll, RecvAll, DecryptedAs, SumPadded, PublicLens;
      plain, records := [], [];
      var decode := aesCtr.DecodeKey();
      var finish := aesCtr.FinishDecode();
      var pending;
      ok, pending, error := DecryptLocally(decrypter, aesCtr, ops);
      if ok {
        plain, records := CollectDecrypted(decrypter.k, role, ops, pending);
      }
    }
  }

  /** Checks the tags of all operations at once. */
  method VerifyPending(decrypter: MpcAesGcm, ops: seq<DecryptOp>) returns (r: Result<(), OpError>)
    modifies decrypter
    ensures decrypter.keyed == old(decrypter.keyed)
    ensures r.Ok? <==> TagsVerify(decrypter.k, old(decrypter.A()), ops)
    ensures r.Ok? ==>
      && decrypter.A() == old(decrypter.A()).(j0s := old(decrypter.j0s) - |ops|)
      && decrypter.phase.Ready? && forall i :: 0 <= i < |ops| ==> |ops[i].nonce| == 8
  {
    hide TagVerifies, GhashFits, Queued, Gctr.Tag;
    var verify := VerifyTagsOf(decrypter, ops);
    if verify.Err? {
      if TagsVerify(decrypter.k, old(decrypter.A()), ops) {
        MasksWhen(decrypter.k, old(decrypter.A()), ops);
      }
      return Err(verify.error);
    }
    r := RunVerify(ops, verify.value);
  }

  /** The conditions of a commit in the order they are checked, and its effect part by part. */
  lemma CommitParts(k: Keys, v: View)
    ensures CanCommit(k, v) <==>
      && v.phase.Online? && v.encryptBuffer == [] && TagsVerify(k.server, v.dec, v.decryptBuffer)
      && SumPadded(PublicLens(v.decryptBuffer)) <= v.dec.left
      && forall i :: 0 <= i < |v.decryptBuffer| ==> Decryptable(v.decryptBuffer[i])
    ensures CanCommit(k, v) ==>
      && Committed(k, v) == v.(phase := Complete, decryptBuffer := [],
                               dec := v.dec.(left := v.dec.left - SumPadded(PublicLens(v.decryptBuffer)), j0s := v.dec.j0s - |v.decryptBuffer|),
                               decryptedBuffer := v.decryptedBuffer + PlainAll(k.server, v.role, v.decryptBuffer))
      && TranscriptOf(k, v) == TlsTranscript(v.phase.sentRecords, v.phase.recvRecords + RecvAll(k.server, v.role, v.decryptBuffer))
  {
    hide TagVerifies, Decryptable, PlainAll, RecvAll, SumPadded, PublicLens;
  }

  lemma MasksWhen(k: Gctr.Key, a: Aead, ops: seq<DecryptOp>)
    requires TagsVerify(k, a, ops)
    ensures a.phase.Ready? && |ops| <= a.j0s && forall i :: 0 <= i < |ops| ==> |ops[i].nonce| == 8
  {
    assert forall i :: 0 <= i < |ops| ==> TagVerifies(k, ops[i]);
  }
}
