/**
 * The record layer as a transition system on values: when each call succeeds, and the
 * state it then leaves. A failed call ends the run, so only successes have a next state.
 */
module RecordLayerSpec {
  import opened Bytes
  import opened Parties
  import opened RecordTypes
  import Gctr

  const MAX_RECORD_SIZE: nat := 1026 * 16
  const MAX_BUFFER_SIZE: nat := (16 * 0x10_0000) / MAX_RECORD_SIZE
  /** Highest power of the hash key that GHASH shares are computed for. */
  const MAX_POWER: nat := 1026

  datatype EncryptOp = EncryptOp(
    seqNo: nat, typ: ContentType, version: nat, len: nat, plaintext: Option<seq<byte>>,
    nonce: seq<byte>, aad: seq<byte>, mode: Mode)

  datatype DecryptOp = DecryptOp(
    seqNo: nat, typ: ContentType, version: nat, nonce: seq<byte>, ciphertext: seq<byte>,
    aad: seq<byte>, tag: seq<byte>, mode: Mode)

  /** The session's write keys. No party holds them; both parties' VM computes under them. */
  datatype Keys = Keys(client: Gctr.Key, server: Gctr.Key)

  datatype AeadPhase = Unallocated | Awaiting | Ready | Failed

  /** What is left of one AEAD instance: `left` bytes of text from VM address `base`, `j0s` tag masks. */
  datatype Aead = Aead(phase: AeadPhase, base: nat, left: nat, j0s: nat)

  datatype Phase =
    | Init
    | Online(recvOtp: Option<seq<byte>>, sentRecords: seq<Record>, recvRecords: seq<Record>)
    | Complete
    | Error

  datatype View = View(
    role: Role, writeSeq: nat, readSeq: nat, enc: Aead, dec: Aead, phase: Phase, started: bool,
    sent: nat, recvOnline: nat, recv: nat, maxSent: nat, maxRecvOnline: nat, maxRecv: nat,
    encryptBuffer: seq<EncryptOp>, decryptBuffer: seq<DecryptOp>,
    encryptedBuffer: seq<EncryptedRecord>, decryptedBuffer: seq<PlainRecord>)

  // ---- new, alloc, setup ----

  function Initial(role: Role): View {
    var unallocated := Aead(Unallocated, 0, 0, 0);
    View(role, 0, 0, unallocated, unallocated, Init, false, 0, 0, 0, 0, 0, 0, [], [], [], [])
  }

  predicate CanAlloc(v: View, sentLen: nat, recvLenOnline: nat) {
    v.phase.Init? && v.enc.phase.Unallocated? && v.dec.phase.Unallocated? && sentLen > 0 && recvLenOnline > 0
  }

  function Allocated(v: View, sentBase: nat, recvBase: nat, sentRecords: nat, recvRecords: nat,
                  sentLen: nat, recvLenOnline: nat, recvLen: nat, otp: seq<byte>): View
  {
    v.(enc := Aead(Awaiting, sentBase, Padded(sentLen), sentRecords),
       dec := Aead(Awaiting, recvBase, Padded(recvLenOnline), recvRecords),
       maxSent := v.maxSent + sentLen, maxRecvOnline := v.maxRecvOnline + recvLenOnline, maxRecv := v.maxRecv + recvLen,
       phase := Online(if v.role.Leader? then Some(otp) else None, [], []))
  }

  predicate CanSetup(v: View) {
    v.enc.phase.Awaiting? && v.dec.phase.Awaiting?
  }

  function ReadyToFlush(v: View): View {
    v.(enc := v.enc.(phase := Ready), dec := v.dec.(phase := Ready))
  }

  // ---- push_encrypt, push_decrypt ----

  predicate CanPushEncrypt(v: View, len: nat, plaintext: Option<seq<byte>>, mode: Mode) {
    && |v.encryptBuffer| < MAX_BUFFER_SIZE
    && v.sent + len <= v.maxSent
    && (plaintext.Some? ==> |plaintext.value| == len)
    && (mode.Public? ==> plaintext.Some?)
  }

  function PushedEncrypt(v: View, typ: ContentType, version: nat, len: nat, plaintext: Option<seq<byte>>, mode: Mode): View {
    v.(writeSeq := v.writeSeq + 1,
       sent := v.sent + len,
       encryptBuffer := v.encryptBuffer + [EncryptOp(v.writeSeq, typ, version, len, plaintext,
                                                     Be(v.writeSeq, 8), Aad(v.writeSeq, typ, version, len), mode)])
  }

  predicate CanPushDecrypt(v: View, ciphertext: seq<byte>) {
    && |v.decryptBuffer| < MAX_BUFFER_SIZE
    && v.recv + |ciphertext| <= v.maxRecv
  }

  function PushedDecrypt(v: View, typ: ContentType, version: nat, nonce: seq<byte>, ciphertext: seq<byte>, tag: seq<byte>, mode: Mode): View {
    v.(readSeq := v.readSeq + 1,
       recv := v.recv + |ciphertext|,
       decryptBuffer := v.decryptBuffer + [DecryptOp(v.readSeq, typ, version, nonce, ciphertext,
                                                     Aad(v.readSeq, typ, version, |ciphertext|), tag, mode)])
  }

  // ---- next_encrypted, next_decrypted ----

  /** Application data waits in the queues for traffic to start. */
  predicate CanPopEncrypted(v: View) {
    v.encryptedBuffer != [] && (v.started || v.encryptedBuffer[0].typ != ApplicationData)
  }

  predicate CanPopDecrypted(v: View) {
    v.decryptedBuffer != [] && (v.started || v.decryptedBuffer[0].typ != ApplicationData)
  }

  // ---- flush ----

  function EncLens(ops: seq<EncryptOp>): (r: seq<nat>)
    ensures |r| == |ops|
  {
    seq(|ops|, i requires 0 <= i < |ops| => ops[i].len)
  }

  function DecLens(ops: seq<DecryptOp>): (r: seq<nat>)
    ensures |r| == |ops|
  {
    seq(|ops|, i requires 0 <= i < |ops| => |ops[i].ciphertext|)
  }

  /** Bytes of the pad the operations take: only private ones are masked. */
  function PrivateLens(ops: seq<DecryptOp>): (r: seq<nat>)
    ensures |r| == |ops|
  {
    seq(|ops|, i requires 0 <= i < |ops| => if ops[i].mode.Private? then |ops[i].ciphertext| else 0)
  }

  /** Bytes of keystream taken in MPC by a commit: private operations are decrypted locally. */
  function PublicLens(ops: seq<DecryptOp>): (r: seq<nat>)
    ensures |r| == |ops|
  {
    seq(|ops|, i requires 0 <= i < |ops| => if ops[i].mode.Public? then |ops[i].ciphertext| else 0)
  }

  predicate GhashFits(aadLen: nat, ciphertextLen: nat) {
    Blocks(aadLen) + Blocks(ciphertextLen) + 1 <= MAX_POWER
  }

  /** A public operation XORs locally, so it needs its plaintext and some keystream. */
  predicate Encryptable(op: EncryptOp) {
    |op.nonce| == 8 && (op.mode.Public? ==> op.len > 0 && op.plaintext.Some?)
  }

  /** The text, keystream and tag masks a batch of encrypts takes are there. */
  predicate EncryptsTake(a: Aead, ops: seq<EncryptOp>) {
    && a.phase.Ready?
    && SumPadded(EncLens(ops)) <= a.left
    && |ops| <= a.j0s
    && forall i :: 0 <= i < |ops| ==> Encryptable(ops[i])
  }

  predicate EncryptsFit(a: Aead, ops: seq<EncryptOp>) {
    && EncryptsTake(a, ops)
    && forall i :: 0 <= i < |ops| ==> GhashFits(|ops[i].aad|, ops[i].len)
  }

  predicate TagVerifies(k: Gctr.Key, op: DecryptOp) {
    && |op.nonce| == 8
    && GhashFits(|op.aad|, |op.ciphertext|)
    && op.tag == Gctr.Tag(k, op.nonce, op.aad, op.ciphertext)
  }

  /** The tags of all operations verify, with enough masks and hash-key powers to check them. */
  predicate TagsVerify(k: Gctr.Key, a: Aead, ops: seq<DecryptOp>) {
    && a.phase.Ready?
    && |ops| <= a.j0s
    && forall i :: 0 <= i < |ops| ==> TagVerifies(k, ops[i])
  }

  predicate Decryptable(op: DecryptOp) {
    |op.nonce| == 8 && (op.mode.Public? ==> |op.ciphertext| > 0)
  }

  /** The keystream and pad for decrypting a batch in MPC are there. */
  predicate DecryptsFit(a: Aead, otp: Option<seq<byte>>, ops: seq<DecryptOp>) {
    && (ops != [] ==> a.phase.Ready?)
    && SumPadded(DecLens(ops)) <= a.left
    && (otp.Some? ==> Sum(PrivateLens(ops)) <= |otp.value|)
    && forall i :: 0 <= i < |ops| ==> Decryptable(ops[i])
  }

  function FirstApplicationData(ops: seq<DecryptOp>): (r: nat)
    ensures r <= |ops|
    ensures forall i :: 0 <= i < r ==> ops[i].typ != ApplicationData
    ensures r < |ops| ==> ops[r].typ == ApplicationData
  {
    if ops == [] || ops[0].typ == ApplicationData then 0 else 1 + FirstApplicationData(ops[1..])
  }

  /** How many pending decrypts a flush takes. */
  function FlushCount(v: View, isDecrypting: bool): (r: nat)
    ensures r <= |v.decryptBuffer|
  {
    if isDecrypting then |v.decryptBuffer| else FirstApplicationData(v.decryptBuffer)
  }

  predicate CanFlush(k: Keys, v: View, isDecrypting: bool) {
    var ops := v.decryptBuffer[..FlushCount(v, isDecrypting)];
    && v.phase.Online?
    && ((v.encryptBuffer == [] && ops == []) ||
        (&& (isDecrypting ==> v.recvOnline + Sum(DecLens(ops)) <= v.maxRecvOnline)
        && EncryptsFit(v.enc, v.encryptBuffer)
        && DecryptsFit(v.dec, v.phase.recvOtp, ops)
        && TagsVerify(k.server, v.dec, ops)))
  }

  /**
   * The plaintexts the shared VM holds for a batch of encrypts: a party that knows one
   * agrees with it, and the leader's assignment supplies the ones the follower does not see.
   */
  predicate InputsOf(ops: seq<EncryptOp>, inputs: seq<seq<byte>>) {
    && |inputs| == |ops|
    && forall i :: 0 <= i < |ops| ==>
         |inputs[i]| == ops[i].len && (ops[i].plaintext.Some? ==> ops[i].plaintext.value == inputs[i])
  }

  function EncryptedOf(k: Gctr.Key, role: Role, op: EncryptOp, input: seq<byte>): EncryptedRecord {
    var ciphertext := Gctr.Apply(k, op.nonce, input);
    EncryptedRecord(op.typ, op.version, op.nonce, ciphertext,
                    if role.Leader? then Some(Gctr.Tag(k, op.nonce, op.aad, ciphertext)) else None)
  }

  /** VM address of the text of operation `i`: text is taken from the back, in whole blocks. */
  function TextRef(a: Aead, lens: seq<nat>, i: nat): Slice
    requires i < |lens| && PaddedTo(lens, i + 1) <= a.left
  {
    Slice(a.base + a.left - PaddedTo(lens, i + 1), lens[i])
  }

  function SentRecordOf(k: Gctr.Key, op: EncryptOp, input: seq<byte>, text: Slice): Record {
    Record(op.seqNo, op.typ, op.plaintext, if op.mode.Private? then Some(text) else None,
           op.nonce, Gctr.Apply(k, op.nonce, input))
  }

  /** The plaintext a party learns of a received record, whichever way it is decrypted. */
  function PlaintextOf(k: Gctr.Key, role: Role, op: DecryptOp): Option<seq<byte>> {
    if role.Leader? || op.mode.Public? then Some(Gctr.Apply(k, op.nonce, op.ciphertext)) else None
  }

  function PlainRecordOf(k: Gctr.Key, role: Role, op: DecryptOp): PlainRecord {
    PlainRecord(op.typ, op.version, PlaintextOf(k, role, op))
  }

  function RecvRecordOf(k: Gctr.Key, role: Role, op: DecryptOp): Record {
    Record(op.seqNo, op.typ, PlaintextOf(k, role, op), None, op.nonce, op.ciphertext)
  }

  function EncryptedAll(k: Gctr.Key, role: Role, ops: seq<EncryptOp>, inputs: seq<seq<byte>>): (r: seq<EncryptedRecord>)
    requires |inputs| == |ops|
    ensures |r| == |ops|
  {
    seq(|ops|, i requires 0 <= i < |ops| => EncryptedOf(k, role, ops[i], inputs[i]))
  }

  function SentAll(k: Gctr.Key, a: Aead, ops: seq<EncryptOp>, inputs: seq<seq<byte>>): (r: seq<Record>)
    requires |inputs| == |ops| && SumPadded(EncLens(ops)) <= a.left
    ensures |r| == |ops|
  {
    seq(|ops|, i requires 0 <= i < |ops| =>
      PaddedToMonotone(EncLens(ops), i + 1, |ops|);
      SentRecordOf(k, ops[i], inputs[i], TextRef(a, EncLens(ops), i)))
  }

  function PlainAll(k: Gctr.Key, role: Role, ops: seq<DecryptOp>): (r: seq<PlainRecord>)
    ensures |r| == |ops|
  {
    seq(|ops|, i requires 0 <= i < |ops| => PlainRecordOf(k, role, ops[i]))
  }

  function RecvAll(k: Gctr.Key, role: Role, ops: seq<DecryptOp>): (r: seq<Record>)
    ensures |r| == |ops|
  {
    seq(|ops|, i requires 0 <= i < |ops| => RecvRecordOf(k, role, ops[i]))
  }

  /** The pad with `used` bytes taken off its back. */
  function Remaining(otp: Option<seq<byte>>, used: nat): Option<seq<byte>>
    requires otp.Some? ==> used <= |otp.value|
  {
    if otp.None? then None else Some(otp.value[..|otp.value| - used])
  }

  /** Where the chunk of the pad for operation `i` starts: chunks are taken off the back, in order. */
  function ChunkStart(pad: nat, lens: seq<nat>, i: nat): nat
    requires i < |lens| && SumTo(lens, i + 1) <= pad
  {
    pad - SumTo(lens, i + 1)
  }

  function PadChunk(pad: seq<byte>, lens: seq<nat>, i: nat): (r: seq<byte>)
    requires i < |lens| && SumTo(lens, i + 1) <= |pad|
    ensures |r| == lens[i]
  {
    var start := ChunkStart(|pad|, lens, i);
    pad[start..start + lens[i]]
  }

  /** `mask` is what hides the keystream of operation `i` from the other party: its own chunk of the pad, if any. */
  predicate MaskedBy(otp: Option<seq<byte>>, lens: seq<nat>, i: nat, mode: Mode, mask: Option<seq<byte>>) {
    && i < |lens| && (otp.Some? ==> SumTo(lens, i + 1) <= |otp.value|)
    && mask == if otp.Some? && mode.Private? then Some(PadChunk(otp.value, lens, i)) else None
  }

  predicate MasksOf(otp: Option<seq<byte>>, ops: seq<DecryptOp>, masks: seq<Option<seq<byte>>>) {
    |masks| == |ops| && forall i :: 0 <= i < |ops| ==> MaskedBy(otp, PrivateLens(ops), i, ops[i].mode, masks[i])
  }

  /** The masks of the operations a flush decrypts. */
  predicate FlushMasks(v: View, isDecrypting: bool, masks: seq<Option<seq<byte>>>) {
    v.phase.Online? && MasksOf(v.phase.recvOtp, v.decryptBuffer[..FlushCount(v, isDecrypting)], masks)
  }

  function Flushed(k: Keys, v: View, isDecrypting: bool, inputs: seq<seq<byte>>): View
    requires CanFlush(k, v, isDecrypting) && InputsOf(v.encryptBuffer, inputs)
  {
    var n := FlushCount(v, isDecrypting);
    var eops, dops := v.encryptBuffer, v.decryptBuffer[..n];
    if eops == [] && dops == [] then v
    else
      v.(encryptBuffer := [],
         decryptBuffer := v.decryptBuffer[n..],
         recvOnline := v.recvOnline + if isDecrypting then Sum(DecLens(dops)) else 0,
         enc := v.enc.(left := v.enc.left - SumPadded(EncLens(eops)), j0s := v.enc.j0s - |eops|),
         dec := v.dec.(left := v.dec.left - SumPadded(DecLens(dops)), j0s := v.dec.j0s - |dops|),
         encryptedBuffer := v.encryptedBuffer + EncryptedAll(k.client, v.role, eops, inputs),
         decryptedBuffer := v.decryptedBuffer + PlainAll(k.server, v.role, dops),
         phase := Online(Remaining(v.phase.recvOtp, Sum(PrivateLens(dops))),
                         v.phase.sentRecords + SentAll(k.client, v.enc, eops, inputs),
                         v.phase.recvRecords + RecvAll(k.server, v.role, dops)))
  }

  // ---- commit ----

  predicate CanCommit(k: Keys, v: View) {
    && v.phase.Online?
    && v.encryptBuffer == []
    && TagsVerify(k.server, v.dec, v.decryptBuffer)
    && SumPadded(PublicLens(v.decryptBuffer)) <= v.dec.left
    && forall i :: 0 <= i < |v.decryptBuffer| ==> Decryptable(v.decryptBuffer[i])
  }

  function Committed(k: Keys, v: View): View
    requires CanCommit(k, v)
  {
    v.(phase := Complete,
       decryptBuffer := [],
       dec := v.dec.(left := v.dec.left - SumPadded(PublicLens(v.decryptBuffer)),
                     j0s := v.dec.j0s - |v.decryptBuffer|),
       decryptedBuffer := v.decryptedBuffer + PlainAll(k.server, v.role, v.decryptBuffer))
  }

  function TranscriptOf(k: Keys, v: View): TlsTranscript
    requires CanCommit(k, v)
  {
    TlsTranscript(v.phase.sentRecords, v.phase.recvRecords + RecvAll(k.server, v.role, v.decryptBuffer))
  }
}
