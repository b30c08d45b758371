/** The batch operations of a flush and of a commit: encrypt, decrypt in MPC, decrypt locally, verify tags. */
module RecordOps {
  import opened Bytes
  import opened Parties
  import opened RecordTypes
  import opened RecordLayerSpec
  import opened MpcAesGcm
  import Gctr
  import LocalAes

  datatype OpError = Cipher(aead: AeadError) | MissingPlaintext | PadExceeded | LengthMismatch | Local(aes: LocalAes.AesError)

  // ---- Encryption ----

  datatype EncryptOutput = EncryptPrivate(ciphertext: seq<byte>) | EncryptPublic(keystream: seq<byte>, plaintext: seq<byte>) {
    method TryEncrypt() returns (r: Result<seq<byte>, OpError>)
      ensures r.Ok? <==> (EncryptPublic? ==> |keystream| == |plaintext|)
      ensures r.Ok? ==> r.value == if EncryptPrivate? then ciphertext else XorInto(plaintext, keystream)
    {
      match this {
        case EncryptPrivate(ciphertext) => return Ok(ciphertext);
        case EncryptPublic(keystream, plaintext) =>
          if |keystream| != |plaintext| { return Err(LengthMismatch); }
          return Ok(XorInto(plaintext, keystream));
      }
    }
  }

  datatype PendingEncrypt = PendingEncrypt(plaintextRef: Option<Slice>, output: EncryptOutput)

  /** The pending encryption of an operation whose VM input is `input`. */
  function PendingEncryptOf(k: Gctr.Key, op: EncryptOp, input: seq<byte>, text: Slice): PendingEncrypt {
    match op.mode
    case Private => PendingEncrypt(Some(text), EncryptPrivate(Gctr.Apply(k, op.nonce, input)))
    case Public => PendingEncrypt(None, EncryptPublic(Gctr.Keystream(k, op.nonce, op.len), input))
  }

  /** One operation: its pending output and the ciphertext its tag is computed over. */
  method EncryptOne(encrypter: MpcAesGcm, op: EncryptOp, input: seq<byte>)
    returns (r: Result<(PendingEncrypt, seq<byte>), OpError>)
    requires |input| == op.len && (op.plaintext.Some? ==> op.plaintext.value == input)
    modifies encrypter
    ensures encrypter.keyed == old(encrypter.keyed)
    ensures r.Ok? <==> old(encrypter.phase).Ready? && Padded(op.len) <= old(encrypter.left) && Encryptable(op)
    ensures r.Ok? ==>
      && encrypter.A() == old(encrypter.A()).(left := old(encrypter.left) - Padded(op.len))
      && r.value == (PendingEncryptOf(encrypter.k, op, input, Slice(encrypter.base + encrypter.left, op.len)),
                     Gctr.Apply(encrypter.k, op.nonce, input))
  {
    match op.mode {
      case Private =>
        var applied := encrypter.ApplyKeystream(op.nonce, op.len);
        if applied.Err? { return Err(Cipher(applied.error)); }
        // The VM decodes input XOR keystream; a party without the plaintext assigns nothing.
        var ciphertext := XorInto(input, applied.value.1);
        return Ok((PendingEncrypt(Some(applied.value.0), EncryptPrivate(ciphertext)), ciphertext));
      case Public =>
        if op.plaintext.None? { return Err(MissingPlaintext); }
        var taken := encrypter.TakeKeystream(op.nonce, op.len);
        if taken.Err? { return Err(Cipher(taken.error)); }
        XorCommutes(taken.value, op.plaintext.value);
        return Ok((PendingEncrypt(None, EncryptPublic(taken.value, op.plaintext.value)),
                   XorInto(taken.value, op.plaintext.value)));
    }
  }

  /** Operation `i` of a batch came out as specified, its text `SumPadded` bytes before the end. */
  ghost predicate PendingAt(k: Gctr.Key, a: Aead, lens: seq<nat>, i: nat, op: EncryptOp, input: seq<byte>, out: PendingEncrypt) {
    && i < |lens| && PaddedTo(lens, i + 1) <= a.left
    && out == PendingEncryptOf(k, op, input, TextRef(a, lens, i))
  }

  ghost predicate EncryptedAs(k: Gctr.Key, a: Aead, ops: seq<EncryptOp>, inputs: seq<seq<byte>>, outputs: seq<PendingEncrypt>) {
    && |outputs| == |ops| == |inputs|
    && forall i :: 0 <= i < |ops| ==> PendingAt(k, a, EncLens(ops), i, ops[i], inputs[i], outputs[i])
  }

  predicate TagInput(k: Gctr.Key, op: EncryptOp, input: seq<byte>, data: TagData, ciphertext: seq<byte>) {
    data == TagData(op.nonce, op.aad) && ciphertext == Gctr.Apply(k, op.nonce, input)
  }

  /** The tag of each operation is computed over its own nonce, additional data and ciphertext. */
  predicate TagInputs(k: Gctr.Key, ops: seq<EncryptOp>, inputs: seq<seq<byte>>, data: seq<TagData>, ciphertexts: seq<seq<byte>>) {
    && |data| == |ciphertexts| == |ops| == |inputs|
    && forall i :: 0 <= i < |ops| ==> TagInput(k, ops[i], inputs[i], data[i], ciphertexts[i])
  }

  /** The loop over a batch; the tag masks are taken afterwards. */
  method EncryptTexts(encrypter: MpcAesGcm, ops: seq<EncryptOp>, inputs: seq<seq<byte>>)
    returns (ok: bool, outputs: seq<PendingEncrypt>, data: seq<TagData>, ciphertexts: seq<seq<byte>>, error: OpError)
    requires InputsOf(ops, inputs)
    modifies encrypter
    ensures encrypter.keyed == old(encrypter.keyed)
    ensures ok <==> (ops != [] ==> old(encrypter.phase).Ready?) && SumPadded(EncLens(ops)) <= old(encrypter.left)
                    && forall i :: 0 <= i < |ops| ==> Encryptable(ops[i])
    ensures ok ==> encrypter.A() == old(encrypter.A()).(left := old(encrypter.left) - SumPadded(EncLens(ops)))
    ensures ok ==> EncryptedAs(encrypter.k, old(encrypter.A()), ops, inputs, outputs)
    ensures ok ==> TagInputs(encrypter.k, ops, inputs, data, ciphertexts)
  {
    hide PaddedTo, Padded, Gctr.Apply, Gctr.Keystream, Encryptable;
    outputs, data, ciphertexts := [], [], [];
    ok, error := true, MissingPlaintext;
    ghost var k, a, lens := encrypter.k, encrypter.A(), EncLens(ops);
    PaddedToZero(lens);
    var i := 0;
    while i < |ops|
      invariant 0 <= i <= |ops| && |outputs| == |ciphertexts| == |data| == i
      invariant encrypter.keyed == old(encrypter.keyed)
      invariant PaddedTo(lens, i) <= a.left
      invariant encrypter.A() == a.(left := a.left - PaddedTo(lens, i))
      invariant i > 0 ==> a.phase.Ready?
      invariant forall j :: 0 <= j < i ==> Encryptable(ops[j])
      invariant forall j :: 0 <= j < i ==> PendingAt(k, a, lens, j, ops[j], inputs[j], outputs[j])
      invariant forall j :: 0 <= j < i ==> TagInput(k, ops[j], inputs[j], data[j], ciphertexts[j])
    {
      PaddedToStep(lens, i);
      var one := EncryptOne(encrypter, ops[i], inputs[i]);
      if one.Err? {
        ok, error := false, one.error;
        return;
      }
      outputs, ciphertexts := outputs + [one.value.0], ciphertexts + [one.value.1];
      data := data + [TagData(ops[i].nonce, ops[i].aad)];
      i := i + 1;
    }
  }

  method Encrypt(encrypter: MpcAesGcm, ops: seq<EncryptOp>, inputs: seq<seq<byte>>)
    returns (r: Result<(seq<PendingEncrypt>, ComputeTags), OpError>)
    requires InputsOf(ops, inputs)
    modifies encrypter
    ensures encrypter.keyed == old(encrypter.keyed)
    ensures r.Ok? <==> EncryptsTake(old(encrypter.A()), ops)
    ensures r.Ok? ==>
      && encrypter.A() == old(encrypter.A()).(left := old(encrypter.left) - SumPadded(EncLens(ops)), j0s := old(encrypter.j0s) - |ops|)
      && EncryptedAs(encrypter.k, old(encrypter.A()), ops, inputs, r.value.0)
      && TagInputs(encrypter.k, ops, inputs, r.value.1.data, r.value.1.ciphertexts)
      && r.value.1.k == encrypter.k && r.value.1.role == encrypter.role
  {
    var ok, outputs, data, ciphertexts, error := EncryptTexts(encrypter, ops, inputs);
    if !ok { return Err(error); }
    var taken := encrypter.TakeMasks(data);
    if taken.Err? { return Err(Cipher(taken.error)); }
    return Ok((outputs, ComputeTags(encrypter.role, encrypter.k, data, ciphertexts)));
  }

  // ---- Decryption ----

  datatype DecryptOutput =
    | DecryptPrivate(masked: seq<byte>, otp: Option<seq<byte>>, ciphertext: seq<byte>)
    | DecryptPublic(keystream: seq<byte>, ciphertext: seq<byte>)
    | DecryptLocal(plaintext: Option<seq<byte>>)
  {
    /** What the decoded values of this output decrypt to. */
    predicate Yields(plaintext: Option<seq<byte>>) {
      match this
      case DecryptPrivate(masked, otp, ciphertext) =>
        plaintext == if otp.None? then None else Some(XorInto(ciphertext, XorInto(otp.value, masked)))
      case DecryptPublic(keystream, ciphertext) =>
        |keystream| == |ciphertext| && plaintext == Some(XorInto(ciphertext, keystream))
      case DecryptLocal(p) => plaintext == p
    }

    method TryDecrypt() returns (r: Result<Option<seq<byte>>, OpError>)
      ensures r.Ok? <==> exists p :: Yields(p)
      ensures r.Ok? ==> Yields(r.value)
    {
      match this {
        case DecryptPrivate(masked, otp, ciphertext) =>
          var p := if otp.None? then None else Some(XorInto(ciphertext, XorInto(otp.value, masked)));
          assert Yields(p);
          return Ok(p);
        case DecryptPublic(keystream, ciphertext) =>
          if |keystream| != |ciphertext| { return Err(LengthMismatch); }
          assert Yields(Some(XorInto(ciphertext, keystream)));
          return Ok(Some(XorInto(ciphertext, keystream)));
        case DecryptLocal(p) =>
          assert Yields(p);
          return Ok(p);
      }
    }
  }

  lemma YieldsOnce(out: DecryptOutput, p: Option<seq<byte>>, q: Option<seq<byte>>)
    requires out.Yields(p) && out.Yields(q)
    ensures p == q
  {
  }

  /** Masking the keystream with the pad and removing the pad again leaves the keystream. */
  lemma PadCancels(pad: seq<byte>, keystream: seq<byte>)
    requires |pad| == |keystream|
    ensures XorInto(pad, XorInto(pad, keystream)) == keystream
  {
    XorCommutes(pad, keystream);
    XorCommutes(pad, XorInto(keystream, pad));
    XorCancels(keystream, pad);
  }

  /** Takes a pad chunk off the back; without a pad (the follower) the result stays hidden. */
  method PrivateMpc(decrypter: MpcAesGcm, otp: Option<seq<byte>>, op: DecryptOp)
    returns (r: Result<DecryptOutput, OpError>, otp': Option<seq<byte>>)
    modifies decrypter
    ensures decrypter.keyed == old(decrypter.keyed)
    ensures r.Ok? <==>
      && (otp.Some? ==> |op.ciphertext| <= |otp.value|)
      && old(decrypter.phase).Ready? && |op.nonce| == 8 && Padded(|op.ciphertext|) <= old(decrypter.left)
    ensures r.Ok? ==>
      && decrypter.A() == old(decrypter.A()).(left := old(decrypter.left) - Padded(|op.ciphertext|))
      && otp' == Remaining(otp, |op.ciphertext|)
      && r.value.Yields(if otp.None? then None else Some(Gctr.Apply(decrypter.k, op.nonce, op.ciphertext)))
      && r.value.DecryptPrivate?
      && (otp.Some? ==>
            var chunk := otp.value[|otp.value| - |op.ciphertext|..];
            && r.value.otp == Some(chunk)
            && r.value.masked == XorInto(chunk, Gctr.Keystream(decrypter.k, op.nonce, |op.ciphertext|)))
      && (otp.None? ==> r.value.otp == None)
  {
    otp' := otp;
    if otp.Some? && |op.ciphertext| > |otp.value| { return Err(PadExceeded), otp'; }
    var applied := decrypter.ApplyKeystream(op.nonce, |op.ciphertext|);
    if applied.Err? { return Err(Cipher(applied.error)), otp'; }
    var keystream := applied.value.1;
    match otp {
      case None =>
        // The decoded value is masked by the leader's pad; the follower discards it.
        return Ok(DecryptPrivate(keystream, None, op.ciphertext)), otp';
      case Some(pad) =>
        var at := |pad| - |op.ciphertext|;
        var chunk := pad[at..];
        otp' := Some(pad[..at]);
        PadCancels(chunk, keystream);
        return Ok(DecryptPrivate(XorInto(chunk, keystream), Some(chunk), op.ciphertext)), otp';
    }
  }

  method PublicMpc(decrypter: MpcAesGcm, op: DecryptOp) returns (r: Result<DecryptOutput, OpError>)
    modifies decrypter
    ensures decrypter.keyed == old(decrypter.keyed)
    ensures r.Ok? <==>
      && old(decrypter.phase).Ready? && |op.nonce| == 8 && Padded(|op.ciphertext|) <= old(decrypter.left)
      && |op.ciphertext| > 0
    ensures r.Ok? ==>
      && decrypter.A() == old(decrypter.A()).(left := old(decrypter.left) - Padded(|op.ciphertext|))
      && r.value.Yields(Some(Gctr.Apply(decrypter.k, op.nonce, op.ciphertext)))
      && r.value.DecryptPublic?
  {
    var taken := decrypter.TakeKeystream(op.nonce, |op.ciphertext|);
    if taken.Err? { return Err(Cipher(taken.error)); }
    return Ok(DecryptPublic(taken.value, op.ciphertext));
  }

  predicate DecryptedAs(k: Gctr.Key, role: Role, ops: seq<DecryptOp>, outputs: seq<DecryptOutput>) {
    && |outputs| == |ops|
    && forall i :: 0 <= i < |ops| ==> outputs[i].Yields(PlaintextOf(k, role, ops[i]))
  }

  /** What hides the decoded value of an output from the other party. */
  function MaskOf(out: DecryptOutput): Option<seq<byte>> {
    if out.DecryptPrivate? then out.otp else None
  }

  function MasksIn(outputs: seq<DecryptOutput>): (r: seq<Option<seq<byte>>>)
    ensures |r| == |outputs|
  {
    seq(|outputs|, i requires 0 <= i < |outputs| => MaskOf(outputs[i]))
  }

  /** The last bytes of what is left of the pad are the chunk its position determines. */
  lemma LastIsChunk(otp: Option<seq<byte>>, lens: seq<nat>, i: nat, op: DecryptOp, left: Option<seq<byte>>, mask: Option<seq<byte>>)
    requires i < |lens| && lens[i] == (if op.mode.Private? then |op.ciphertext| else 0)
    requires otp.Some? ==> SumTo(lens, i) <= |otp.value|
    requires left == Remaining(otp, SumTo(lens, i)) && (left.Some? ==> lens[i] <= |left.value|)
    requires mask == if left.Some? && op.mode.Private? then Some(left.value[|left.value| - lens[i]..]) else None
    ensures MaskedBy(otp, lens, i, op.mode, mask)
  {
    if otp.Some? {
      var pad, used := otp.value, SumTo(lens, i);
      assert SumTo(lens, i + 1) == used + lens[i];
      var at := |pad| - used - lens[i];
      assert pad[..|pad| - used][at..] == pad[at..at + lens[i]];
    }
  }

  lemma LensAt(ops: seq<DecryptOp>, i: nat)
    requires i < |ops|
    ensures PaddedTo(DecLens(ops), i + 1) == PaddedTo(DecLens(ops), i) + Padded(|ops[i].ciphertext|) <= SumPadded(DecLens(ops))
    ensures SumTo(PrivateLens(ops), i + 1) == SumTo(PrivateLens(ops), i) + (if ops[i].mode.Private? then |ops[i].ciphertext| else 0)
    ensures SumTo(PrivateLens(ops), i + 1) <= Sum(PrivateLens(ops))
    ensures PaddedTo(PublicLens(ops), i + 1) == PaddedTo(PublicLens(ops), i) + (if ops[i].mode.Public? then Padded(|ops[i].ciphertext|) else 0)
    ensures PaddedTo(PublicLens(ops), i + 1) <= SumPadded(PublicLens(ops))
  {
    PaddedToStep(DecLens(ops), i);
    SumToMonotone(PrivateLens(ops), i + 1, |ops|);
    PaddedToStep(PublicLens(ops), i);
  }

  lemma LensStart(ops: seq<DecryptOp>)
    ensures PaddedTo(DecLens(ops), 0) == 0 && SumTo(PrivateLens(ops), 0) == 0 && PaddedTo(PublicLens(ops), 0) == 0
  {
  }

  lemma RemainingStep(otp: Option<seq<byte>>, used: nat, n: nat)
    requires otp.Some? ==> used + n <= |otp.value|
    ensures Remaining(Remaining(otp, used), n) == Remaining(otp, used + n)
    ensures Remaining(otp, 0) == otp
  {
    if otp.Some? {
      var pad := otp.value;
      assert pad[..|pad| - 0] == pad;
      assert pad[..|pad| - used][..|pad| - used - n] == pad[..|pad| - used - n];
    }
  }

  method DecryptMpc(decrypter: MpcAesGcm, otp: Option<seq<byte>>, ops: seq<DecryptOp>)
    returns (ok: bool, outputs: seq<DecryptOutput>, otp': Option<seq<byte>>, error: OpError)
    requires otp.Some? <==> decrypter.role.Leader?
    modifies decrypter
    ensures decrypter.keyed == old(decrypter.keyed)
    ensures ok <==> DecryptsFit(old(decrypter.A()), otp, ops)
    ensures ok ==> decrypter.A() == old(decrypter.A()).(left := old(decrypter.left) - SumPadded(DecLens(ops)))
    ensures ok ==> otp' == Remaining(otp, Sum(PrivateLens(ops)))
    ensures ok ==> DecryptedAs(decrypter.k, decrypter.role, ops, outputs)
    ensures ok ==> MasksOf(otp, ops, MasksIn(outputs))
  {
    hide PaddedTo, SumTo, Padded, Gctr.Apply, Decryptable, DecryptOutput.Yields, DecLens, PrivateLens, PublicLens, MaskedBy;
    outputs, otp', ok, error := [], otp, true, MissingPlaintext;
    ghost var a := decrypter.A();
    LensStart(ops);
    RemainingStep(otp, 0, 0);
    var i := 0;
    while i < |ops|
      invariant 0 <= i <= |ops| && |outputs| == i
      invariant decrypter.keyed == old(decrypter.keyed)
      invariant PaddedTo(DecLens(ops), i) <= a.left
      invariant decrypter.A() == a.(left := a.left - PaddedTo(DecLens(ops), i))
      invariant otp.Some? ==> SumTo(PrivateLens(ops), i) <= |otp.value|
      invariant otp' == Remaining(otp, SumTo(PrivateLens(ops), i))
      invariant i > 0 ==> a.phase.Ready?
      invariant forall j :: 0 <= j < i ==> Decryptable(ops[j])
      invariant forall j :: 0 <= j < i ==> outputs[j].Yields(PlaintextOf(decrypter.k, decrypter.role, ops[j]))
      invariant forall j :: 0 <= j < i ==> MaskedBy(otp, PrivateLens(ops), j, ops[j].mode, MaskOf(outputs[j]))
    {
      LensAt(ops, i);
      var op := ops[i];
      ghost var left := otp';
      var one: Result<DecryptOutput, OpError>;
      if op.mode.Private? {
        one, otp' := PrivateMpc(decrypter, otp', op);
      } else {
        one := PublicMpc(decrypter, op);
      }
      DecryptableWhen(op);
      if one.Err? {
        ok, error := false, one.error;
        return;
      }
      RemainingStep(otp, SumTo(PrivateLens(ops), i), if op.mode.Private? then |op.ciphertext| else 0);
      PrivateLenAt(ops, i);
      LastIsChunk(otp, PrivateLens(ops), i, op, left, MaskOf(one.value));
      outputs := outputs + [one.value];
      i := i + 1;
    }
  }

  lemma PrivateLenAt(ops: seq<DecryptOp>, i: nat)
    requires i < |ops|
    ensures PrivateLens(ops)[i] == if ops[i].mode.Private? then |ops[i].ciphertext| else 0
  {
  }

  lemma DecryptableWhen(op: DecryptOp)
    ensures Decryptable(op) <==> |op.nonce| == 8 && (op.mode.Public? ==> |op.ciphertext| > 0)
  {
  }

  /** At commit: private records are the leader's to decrypt locally, public ones still go through MPC. */
  method DecryptLocally(decrypter: MpcAesGcm, local: LocalAes.AesCtr, ops: seq<DecryptOp>)
    returns (ok: bool, outputs: seq<DecryptOutput>, error: OpError)
    requires local.Valid() && local.state.Ready? && local.role == decrypter.role && local.k == decrypter.k
    modifies decrypter
    ensures decrypter.keyed == old(decrypter.keyed)
    ensures (forall i :: 0 <= i < |ops| ==> |ops[i].nonce| == 8) && old(decrypter.phase).Ready? ==>
      (ok <==> SumPadded(PublicLens(ops)) <= old(decrypter.left) && forall i :: 0 <= i < |ops| ==> Decryptable(ops[i]))
    ensures ok ==> SumPadded(PublicLens(ops)) <= old(decrypter.left)
                   && decrypter.A() == old(decrypter.A()).(left := old(decrypter.left) - SumPadded(PublicLens(ops)))
    ensures ok ==> DecryptedAs(decrypter.k, decrypter.role, ops, outputs)
  {
    hide PaddedTo, SumTo, Padded, Gctr.Apply, Decryptable, DecryptOutput.Yields, DecLens, PrivateLens, PublicLens;
    outputs, ok, error := [], true, MissingPlaintext;
    ghost var a := decrypter.A();
    LensStart(ops);
    var i := 0;
    while i < |ops|
      invariant 0 <= i <= |ops| && |outputs| == i
      invariant decrypter.keyed == old(decrypter.keyed)
      invariant PaddedTo(PublicLens(ops), i) <= a.left
      invariant decrypter.A() == a.(left := a.left - PaddedTo(PublicLens(ops), i))
      invariant forall j :: 0 <= j < i && |ops[j].nonce| == 8 ==> Decryptable(ops[j])
      invariant forall j :: 0 <= j < i ==> outputs[j].Yields(PlaintextOf(decrypter.k, decrypter.role, ops[j]))
    {
      LensAt(ops, i);
      var op := ops[i];
      var one: Result<DecryptOutput, OpError>;
      if op.mode.Private? {
        one := LocalOne(decrypter.role, local, op);
      } else {
        one := PublicMpc(decrypter, op);
      }
      DecryptableWhen(op);
      if one.Err? {
        ok, error := false, one.error;
        return;
      }
      outputs := outputs + [one.value];
      i := i + 1;
    }
  }

  method LocalOne(role: Role, local: LocalAes.AesCtr, op: DecryptOp) returns (r: Result<DecryptOutput, OpError>)
    requires local.Valid() && local.state.Ready? && local.role == role && op.mode.Private?
    ensures r.Ok? <==> (role.Leader? ==> |op.nonce| == 8)
    ensures r.Ok? ==> r.value.Yields(PlaintextOf(local.k, role, op))
  {
    if role.Follower? { return Ok(DecryptLocal(None)); }
    var plaintext := local.Decrypt(op.nonce, op.ciphertext);
    if plaintext.Err? { return Err(Local(plaintext.error)); }
    return Ok(DecryptLocal(Some(plaintext.value)));
  }

  // ---- Tags of received records ----

  method VerifyTagsOf(decrypter: MpcAesGcm, ops: seq<DecryptOp>) returns (r: Result<VerifyTags, OpError>)
    modifies decrypter
    ensures decrypter.keyed == old(decrypter.keyed)
    ensures r.Ok? <==> old(decrypter.phase).Ready? && |ops| <= old(decrypter.j0s) && forall i :: 0 <= i < |ops| ==> |ops[i].nonce| == 8
    ensures r.Ok? ==> decrypter.A() == old(decrypter.A()).(j0s := old(decrypter.j0s) - |ops|)
    ensures r.Ok? ==> r.value.k == decrypter.k && Queued(ops, r.value)
  {
    var ciphertexts: seq<seq<byte>> := [];
    var tags: seq<seq<byte>> := [];
    var data: seq<TagData> := [];
    for i := 0 to |ops|
      invariant |data| == |ciphertexts| == |tags| == i
      invariant forall j :: 0 <= j < i ==> data[j] == TagData(ops[j].nonce, ops[j].aad)
      invariant forall j :: 0 <= j < i ==> ciphertexts[j] == ops[j].ciphertext && tags[j] == ops[j].tag
    {
      ciphertexts, tags := ciphertexts + [ops[i].ciphertext], tags + [ops[i].tag];
      data := data + [TagData(ops[i].nonce, ops[i].aad)];
    }
    var taken := decrypter.TakeMasks(data);
    if taken.Err? { return Err(Cipher(taken.error)); }
    return Ok(VerifyTags(decrypter.k, data, ciphertexts, tags));
  }

  predicate Queued(ops: seq<DecryptOp>, t: VerifyTags) {
    && |t.data| == |t.ciphertexts| == |t.tags| == |ops|
    && forall i :: 0 <= i < |ops| ==>
         t.data[i] == TagData(ops[i].nonce, ops[i].aad) && t.ciphertexts[i] == ops[i].ciphertext && t.tags[i] == ops[i].tag
  }

  /** Runs a queued verification: it succeeds exactly when every record's tag is right. */
  method RunVerify(ops: seq<DecryptOp>, t: VerifyTags) returns (r: Result<(), OpError>)
    requires Queued(ops, t) && forall i :: 0 <= i < |ops| ==> |ops[i].nonce| == 8
    ensures r.Ok? <==> forall i :: 0 <= i < |ops| ==> TagVerifies(t.k, ops[i])
  {
    var run := t.Run();
    assert forall i :: 0 <= i < |ops| ==>
      (TagVerifies(t.k, ops[i]) <==>
       && GhashFits(|t.data[i].aad|, |t.ciphertexts[i]|)
       && t.tags[i] == Gctr.Tag(t.k, t.data[i].nonce, t.data[i].aad, t.ciphertexts[i]));
    if run.Err? { return Err(Cipher(run.error)); }
    return Ok(());
  }
}
