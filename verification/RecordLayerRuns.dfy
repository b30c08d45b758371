/**
 * Whole runs of the record layer. A session pairs the layer's state with the history of
 * what was pushed into it and popped from it; one invariant ties the two together.
 */
module RecordLayerRuns {
  import opened Bytes
  import opened Parties
  import opened RecordTypes
  import opened RecordLayerSpec
  import Gctr

  /** A call of push_encrypt. `hidden` is the VM's input when this party does not know it. */
  datatype EncPush = EncPush(typ: ContentType, version: nat, len: nat, plaintext: Option<seq<byte>>, hidden: seq<byte>, mode: Mode) {
    function Input(): seq<byte> {
      if plaintext.Some? then plaintext.value else hidden
    }
  }

  datatype DecPush = DecPush(typ: ContentType, version: nat, nonce: seq<byte>, ciphertext: seq<byte>, tag: seq<byte>, mode: Mode)

  datatype Event =
    | Setup
    | PushEncrypt(enc: EncPush)
    | PushDecrypt(dec: DecPush)
    | NextEncrypted
    | NextDecrypted
    | StartTraffic
    | Flush(isDecrypting: bool)

  datatype Session = Session(
    v: View, encs: seq<EncPush>, decs: seq<DecPush>,
    poppedEnc: seq<EncryptedRecord>, poppedDec: seq<PlainRecord>)

  /** The VM's inputs for the operations still pending, which are the last ones pushed. */
  function PendingInputs(s: Session): (r: seq<seq<byte>>)
    requires |s.v.encryptBuffer| <= |s.encs|
    ensures |r| == |s.v.encryptBuffer|
  {
    seq(|s.v.encryptBuffer|, i requires 0 <= i < |s.v.encryptBuffer| =>
      s.encs[|s.encs| - |s.v.encryptBuffer| + i].Input())
  }

  predicate CanStep(k: Keys, s: Session, e: Event) {
    match e
    case Setup => CanSetup(s.v)
    case PushEncrypt(p) => CanPushEncrypt(s.v, p.len, p.plaintext, p.mode) && |p.Input()| == p.len
    case PushDecrypt(p) => CanPushDecrypt(s.v, p.ciphertext)
    case Flush(isDecrypting) =>
      && CanFlush(k, s.v, isDecrypting)
      && |s.v.encryptBuffer| <= |s.encs| && InputsOf(s.v.encryptBuffer, PendingInputs(s))
    case _ => true
  }

  function Step(k: Keys, s: Session, e: Event): Session
    requires CanStep(k, s, e)
  {
    match e
    case Setup => s.(v := ReadyToFlush(s.v))
    case PushEncrypt(p) =>
      s.(v := PushedEncrypt(s.v, p.typ, p.version, p.len, p.plaintext, p.mode), encs := s.encs + [p])
    case PushDecrypt(p) =>
      s.(v := PushedDecrypt(s.v, p.typ, p.version, p.nonce, p.ciphertext, p.tag, p.mode), decs := s.decs + [p])
    case NextEncrypted =>
      if !CanPopEncrypted(s.v) then s
      else s.(v := s.v.(encryptedBuffer := s.v.encryptedBuffer[1..]), poppedEnc := s.poppedEnc + [s.v.encryptedBuffer[0]])
    case NextDecrypted =>
      if !CanPopDecrypted(s.v) then s
      else s.(v := s.v.(decryptedBuffer := s.v.decryptedBuffer[1..]), poppedDec := s.poppedDec + [s.v.decryptedBuffer[0]])
    case StartTraffic => s.(v := s.v.(started := true))
    case Flush(isDecrypting) => s.(v := Flushed(k, s.v, isDecrypting, PendingInputs(s)))
  }

  /** A run succeeds when each of its calls does. */
  function Run(k: Keys, s: Session, events: seq<Event>): Option<Session>
    decreases |events|
  {
    if events == [] then Some(s)
    else if !CanStep(k, s, events[0]) then None
    else Run(k, Step(k, s, events[0]), events[1..])
  }

  /** The state an allocation leaves. */
  predicate Fresh(v0: View) {
    && v0.enc.phase.Awaiting? && v0.dec.phase.Awaiting?
    && v0.phase.Online? && v0.phase.sentRecords == [] && v0.phase.recvRecords == []
    && (v0.phase.recvOtp.Some? <==> v0.role.Leader?)
    && (v0.phase.recvOtp.Some? ==> |v0.phase.recvOtp.value| == v0.maxRecvOnline)
    && v0.writeSeq == v0.readSeq == v0.sent == v0.recvOnline == v0.recv == 0 && !v0.started
    && v0.encryptBuffer == [] && v0.decryptBuffer == [] && v0.encryptedBuffer == [] && v0.decryptedBuffer == []
  }

  lemma AllocIsFresh(role: Role, sentBase: nat, recvBase: nat, sentRecords: nat, recvRecords: nat,
                     sentLen: nat, recvLenOnline: nat, recvLen: nat, otp: seq<byte>)
    requires CanAlloc(Initial(role), sentLen, recvLenOnline) && |otp| == recvLenOnline
    ensures Fresh(Allocated(Initial(role), sentBase, recvBase, sentRecords, recvRecords, sentLen, recvLenOnline, recvLen, otp))
  {
  }

  function Begin(v0: View): Session {
    Session(v0, [], [], [], [])
  }

  // ---- What each pushed record must turn into, as a function of its position alone ----

  function PushLens(encs: seq<EncPush>): (r: seq<nat>)
    ensures |r| == |encs|
  {
    seq(|encs|, i requires 0 <= i < |encs| => encs[i].len)
  }

  function RecvLens(decs: seq<DecPush>): (r: seq<nat>)
    ensures |r| == |decs|
  {
    seq(|decs|, i requires 0 <= i < |decs| => |decs[i].ciphertext|)
  }

  function RecvPrivateLens(decs: seq<DecPush>): (r: seq<nat>)
    ensures |r| == |decs|
  {
    seq(|decs|, i requires 0 <= i < |decs| => if decs[i].mode.Private? then |decs[i].ciphertext| else 0)
  }

  function EncOpAt(i: nat, p: EncPush): EncryptOp {
    EncryptOp(i, p.typ, p.version, p.len, p.plaintext, Be(i, 8), Aad(i, p.typ, p.version, p.len), p.mode)
  }

  function DecOpAt(i: nat, p: DecPush): DecryptOp {
    DecryptOp(i, p.typ, p.version, p.nonce, p.ciphertext, Aad(i, p.typ, p.version, |p.ciphertext|), p.tag, p.mode)
  }

  /** The `i`-th record sent: number `i`, its own nonce, the GCTR ciphertext, its own text reference. */
  predicate SentAt(k: Gctr.Key, a0: Aead, lens: seq<nat>, i: nat, p: EncPush, r: Record) {
    && i < |lens| && PaddedTo(lens, i + 1) <= a0.left
    && r == SentRecordOf(k, EncOpAt(i, p), p.Input(), TextRef(a0, lens, i))
  }

  function RecvAt(k: Gctr.Key, role: Role, i: nat, p: DecPush): Record {
    RecvRecordOf(k, role, DecOpAt(i, p))
  }

  function EncryptedAt(k: Gctr.Key, role: Role, i: nat, p: EncPush): EncryptedRecord {
    EncryptedOf(k, role, EncOpAt(i, p), p.Input())
  }

  function PlainAt(k: Gctr.Key, role: Role, i: nat, p: DecPush): PlainRecord {
    PlainRecordOf(k, role, DecOpAt(i, p))
  }

  // ---- The invariant ----

  /** Quotas, buffer limits and sequence numbers. */
  predicate Within(v0: View, s: Session) {
    && s.v.role == v0.role
    && s.v.maxSent == v0.maxSent && s.v.maxRecv == v0.maxRecv && s.v.maxRecvOnline == v0.maxRecvOnline
    && s.v.writeSeq == |s.encs| && s.v.readSeq == |s.decs|
    && s.v.sent == Sum(PushLens(s.encs)) && s.v.recv == Sum(RecvLens(s.decs))
    && s.v.sent <= s.v.maxSent && s.v.recv <= s.v.maxRecv
    && s.v.recvOnline <= s.v.maxRecvOnline
    && |s.v.encryptBuffer| <= MAX_BUFFER_SIZE && |s.v.decryptBuffer| <= MAX_BUFFER_SIZE
  }

  /** Sent records, then pending encrypts, are the pushes in order; so are the emitted records. */
  predicate Sends(k: Gctr.Key, v0: View, s: Session) {
    s.v.phase.Online? &&
    var n, lens := |s.v.phase.sentRecords|, PushLens(s.encs);
    && n + |s.v.encryptBuffer| == |s.encs|
    && (forall i :: 0 <= i < n ==> SentAt(k, v0.enc, lens, i, s.encs[i], s.v.phase.sentRecords[i]))
    && (forall i :: n <= i < |s.encs| ==> s.v.encryptBuffer[i - n] == EncOpAt(i, s.encs[i]))
    && (forall i :: 0 <= i < |s.encs| ==>
          |s.encs[i].Input()| == s.encs[i].len && (s.encs[i].mode.Public? ==> s.encs[i].plaintext.Some?))
    && s.v.enc.base == v0.enc.base && PaddedTo(lens, n) <= v0.enc.left
    && s.v.enc.left == v0.enc.left - PaddedTo(lens, n)
    && |s.poppedEnc| + |s.v.encryptedBuffer| == n
    && (forall i :: 0 <= i < n ==> (s.poppedEnc + s.v.encryptedBuffer)[i] == EncryptedAt(k, s.v.role, i, s.encs[i]))
  }

  /** The same for what is received, and the pad is the original minus what was decrypted privately. */
  predicate Receives(k: Gctr.Key, v0: View, s: Session) {
    s.v.phase.Online? &&
    var m := |s.v.phase.recvRecords|;
    && m + |s.v.decryptBuffer| == |s.decs|
    && (forall i :: 0 <= i < m ==> s.v.phase.recvRecords[i] == RecvAt(k, s.v.role, i, s.decs[i]))
    && (forall i :: m <= i < |s.decs| ==> s.v.decryptBuffer[i - m] == DecOpAt(i, s.decs[i]))
    && PaddedTo(RecvLens(s.decs), m) <= v0.dec.left
    && s.v.dec.left == v0.dec.left - PaddedTo(RecvLens(s.decs), m)
    && (v0.phase.Online? && v0.phase.recvOtp.Some? ==> SumTo(RecvPrivateLens(s.decs), m) <= |v0.phase.recvOtp.value|)
    && v0.phase.Online? && s.v.phase.recvOtp == Remaining(v0.phase.recvOtp, SumTo(RecvPrivateLens(s.decs), m))
    && |s.poppedDec| + |s.v.decryptedBuffer| == m
    && (forall i :: 0 <= i < m ==> (s.poppedDec + s.v.decryptedBuffer)[i] == PlainAt(k, s.v.role, i, s.decs[i]))
  }

  /** No application data leaves the layer before traffic has started. */
  predicate Held(s: Session) {
    !s.v.started ==>
      && (forall i :: 0 <= i < |s.poppedEnc| ==> s.poppedEnc[i].typ != ApplicationData)
      && (forall i :: 0 <= i < |s.poppedDec| ==> s.poppedDec[i].typ != ApplicationData)
  }

  predicate Inv(k: Keys, v0: View, s: Session) {
    Within(v0, s) && Sends(k.client, v0, s) && Receives(k.server, v0, s) && Held(s)
  }

  lemma BeginInv(k: Keys, v0: View)
    requires Fresh(v0)
    ensures Inv(k, v0, Begin(v0))
  {
    var pad := v0.phase.recvOtp;
    if pad.Some? {
      assert pad.value[..|pad.value| - 0] == pad.value;
    }
  }

  // ---- Every step keeps it ----

  lemma PushLensGrow(encs: seq<EncPush>, p: EncPush)
    ensures PushLens(encs + [p]) == PushLens(encs) + [p.len]
    ensures Sum(PushLens(encs + [p])) == Sum(PushLens(encs)) + p.len
    ensures forall n :: 0 <= n <= |encs| ==> PaddedTo(PushLens(encs + [p]), n) == PaddedTo(PushLens(encs), n)
  {
    var lens, longer := PushLens(encs), PushLens(encs + [p]);
    SumToExtends(lens, longer, |encs|);
    forall n | 0 <= n <= |encs|
      ensures PaddedTo(longer, n) == PaddedTo(lens, n)
    {
      PaddedToExtends(lens, longer, n);
    }
  }

  lemma RecvLensGrow(decs: seq<DecPush>, p: DecPush)
    ensures Sum(RecvLens(decs + [p])) == Sum(RecvLens(decs)) + |p.ciphertext|
    ensures forall n :: 0 <= n <= |decs| ==> PaddedTo(RecvLens(decs + [p]), n) == PaddedTo(RecvLens(decs), n)
    ensures forall n :: 0 <= n <= |decs| ==> SumTo(RecvPrivateLens(decs + [p]), n) == SumTo(RecvPrivateLens(decs), n)
  {
    SumToExtends(RecvLens(decs), RecvLens(decs + [p]), |decs|);
    forall n | 0 <= n <= |decs|
      ensures PaddedTo(RecvLens(decs + [p]), n) == PaddedTo(RecvLens(decs), n)
      ensures SumTo(RecvPrivateLens(decs + [p]), n) == SumTo(RecvPrivateLens(decs), n)
    {
      PaddedToExtends(RecvLens(decs), RecvLens(decs + [p]), n);
      SumToExtends(RecvPrivateLens(decs), RecvPrivateLens(decs + [p]), n);
    }
  }

  lemma WithinKept(k: Keys, v0: View, s: Session, e: Event)
    requires Within(v0, s) && CanStep(k, s, e)
    ensures Within(v0, Step(k, s, e))
  {
    hide Gctr.Apply, Gctr.Tag, Sum, SumPadded, EncryptsFit, DecryptsFit, TagsVerify, Aad, Be;
    match e
    case PushEncrypt(p) => PushLensGrow(s.encs, p);
    case PushDecrypt(p) => RecvLensGrow(s.decs, p);
    case _ =>
  }

  lemma FlushKeepsPops(k: Keys, s: Session, isDecrypting: bool)
    requires CanStep(k, s, Flush(isDecrypting))
    ensures var t := Step(k, s, Flush(isDecrypting));
      t.v.started == s.v.started && t.poppedEnc == s.poppedEnc && t.poppedDec == s.poppedDec && t.encs == s.encs && t.decs == s.decs
  {
  }

  lemma HeldKept(k: Keys, s: Session, e: Event)
    requires Held(s) && CanStep(k, s, e)
    ensures Held(Step(k, s, e))
  {
    hide Gctr.Apply, Gctr.Tag, Sum, SumPadded, EncryptsFit, DecryptsFit, TagsVerify, Aad, Be, Flushed;
    if e.Flush? {
      FlushKeepsPops(k, s, e.isDecrypting);
    }
  }

  lemma SendsPush(k: Keys, v0: View, s: Session, p: EncPush)
    requires Within(v0, s) && Sends(k.client, v0, s) && CanStep(k, s, PushEncrypt(p))
    ensures Sends(k.client, v0, Step(k, s, PushEncrypt(p)))
  {
    hide Gctr.Apply, Gctr.Tag, PaddedTo, SumTo, Aad, Be, EncryptedOf, SentRecordOf;
    PushLensGrow(s.encs, p);
    var t := Step(k, s, PushEncrypt(p));
    var n := |s.v.phase.sentRecords|;
    forall i | 0 <= i < n
      ensures SentAt(k.client, v0.enc, PushLens(t.encs), i, t.encs[i], t.v.phase.sentRecords[i])
    {
      assert SentAt(k.client, v0.enc, PushLens(s.encs), i, s.encs[i], s.v.phase.sentRecords[i]);
    }
  }

  lemma SendsPop(k: Keys, v0: View, s: Session)
    requires Sends(k.client, v0, s)
    ensures Sends(k.client, v0, Step(k, s, NextEncrypted))
  {
    hide Gctr.Apply, Gctr.Tag, PaddedTo, Aad, Be, EncryptedOf, SentRecordOf;
    if CanPopEncrypted(s.v) {
      var t := Step(k, s, NextEncrypted);
      assert t.poppedEnc + t.v.encryptedBuffer == s.poppedEnc + s.v.encryptedBuffer;
    }
  }

  /** Position `i` of the one and `j` of the other are given the same text. */
  predicate SameText(a: Aead, lens: seq<nat>, i: nat, b: Aead, longer: seq<nat>, j: nat) {
    && i < |lens| && PaddedTo(lens, i + 1) <= a.left && j < |longer| && PaddedTo(longer, j + 1) <= b.left
    && TextRef(a, lens, i) == TextRef(b, longer, j)
  }

  /** Where the `j`-th operation of a batch finds its text, seen from the whole session. */
  lemma TextRefShifts(v0: View, s: Session, k: Gctr.Key, j: nat)
    requires Sends(k, v0, s) && j < |s.v.encryptBuffer|
    requires SumPadded(EncLens(s.v.encryptBuffer)) <= s.v.enc.left
    ensures SameText(s.v.enc, EncLens(s.v.encryptBuffer), j, v0.enc, PushLens(s.encs), |s.v.phase.sentRecords| + j)
  {
    hide Gctr.Apply, Gctr.Tag, PaddedTo, Aad, Be, EncryptedOf, SentRecordOf;
    var n, lens, part := |s.v.phase.sentRecords|, PushLens(s.encs), EncLens(s.v.encryptBuffer);
    assert Continues(lens, n, part) by {
      forall i | 0 <= i < |part|
        ensures lens[n + i] == part[i]
      {
        assert s.v.encryptBuffer[(n + i) - n] == EncOpAt(n + i, s.encs[n + i]);
      }
    }
    PaddedToSplit(lens, n, part, j + 1);
    PaddedToMonotone(part, j + 1, |part|);
  }

  /** The sending half of a flush; an empty flush is no exception to it. */
  lemma FlushSends(k: Keys, s: Session, isDecrypting: bool)
    requires CanStep(k, s, Flush(isDecrypting))
    ensures s.v.phase.Online? && InputsOf(s.v.encryptBuffer, PendingInputs(s))
    ensures SumPadded(EncLens(s.v.encryptBuffer)) <= s.v.enc.left
    ensures var t := Step(k, s, Flush(isDecrypting));
      && t.encs == s.encs && t.poppedEnc == s.poppedEnc && t.v.role == s.v.role
      && t.v.phase.Online? && t.v.encryptBuffer == []
      && t.v.phase.sentRecords == s.v.phase.sentRecords + SentAll(k.client, s.v.enc, s.v.encryptBuffer, PendingInputs(s))
      && t.v.encryptedBuffer == s.v.encryptedBuffer + EncryptedAll(k.client, s.v.role, s.v.encryptBuffer, PendingInputs(s))
      && t.v.enc.base == s.v.enc.base && t.v.enc.left == s.v.enc.left - SumPadded(EncLens(s.v.encryptBuffer))
  {
    hide Gctr.Apply, Gctr.Tag, PaddedTo, DecryptsFit, TagsVerify, PlainAll, RecvAll, Sum, Remaining, Encryptable, FirstApplicationData;
    if s.v.encryptBuffer == [] {
      PaddedToZero(EncLens([]));
      assert SentAll(k.client, s.v.enc, [], []) == [];
      assert EncryptedAll(k.client, s.v.role, [], []) == [];
    }
  }

  lemma BatchAt(v0: View, s: Session, k: Gctr.Key, j: nat)
    requires Sends(k, v0, s) && j < |s.v.encryptBuffer|
    requires SumPadded(EncLens(s.v.encryptBuffer)) <= s.v.enc.left
    ensures var i, inputs := |s.v.phase.sentRecords| + j, PendingInputs(s);
      && SentAt(k, v0.enc, PushLens(s.encs), i, s.encs[i], SentAll(k, s.v.enc, s.v.encryptBuffer, inputs)[j])
      && EncryptedAll(k, s.v.role, s.v.encryptBuffer, inputs)[j] == EncryptedAt(k, s.v.role, i, s.encs[i])
  {
    hide Gctr.Apply, Gctr.Tag, PaddedTo, Aad, Be, EncryptedOf, SentRecordOf, TextRef, EncLens, PushLens, Sends, EncOpAt;
    PendingAt(k, v0, s, j);
    TextRefShifts(v0, s, k, j);
  }

  /** The `j`-th pending operation is the push at its position in the session. */
  lemma PendingAt(k: Gctr.Key, v0: View, s: Session, j: nat)
    requires Sends(k, v0, s) && j < |s.v.encryptBuffer|
    ensures s.v.phase.Online? && |s.v.phase.sentRecords| + |s.v.encryptBuffer| == |s.encs|
    ensures var i := |s.v.phase.sentRecords| + j;
      s.v.encryptBuffer[j] == EncOpAt(i, s.encs[i]) && PendingInputs(s)[j] == s.encs[i].Input()
  {
    hide Gctr.Apply, Gctr.Tag, PaddedTo, Aad, Be, EncryptedOf, SentRecordOf, TextRef, PushLens, EncOpAt, SentAt, EncryptedAt;
    var n := |s.v.phase.sentRecords|;
    assert s.v.encryptBuffer[(n + j) - n] == EncOpAt(n + j, s.encs[n + j]);
  }

  lemma SendsFlush(k: Keys, v0: View, s: Session, isDecrypting: bool)
    requires Sends(k.client, v0, s) && CanStep(k, s, Flush(isDecrypting))
    ensures Sends(k.client, v0, Step(k, s, Flush(isDecrypting)))
  {
    hide Gctr.Apply, Gctr.Tag, PaddedTo, Aad, Be, EncryptedOf, SentRecordOf, CanStep, Step, SentAll, EncryptedAll, TextRef, EncLens, PushLens, SumPadded;
    hide SentAt, EncryptedAt;
    FlushSends(k, s, isDecrypting);
    EncLeft(v0, s, k.client);
    var t := Step(k, s, Flush(isDecrypting));
    forall i | 0 <= i < |s.encs|
      ensures SentAt(k.client, v0.enc, PushLens(s.encs), i, s.encs[i], t.v.phase.sentRecords[i])
      ensures (t.poppedEnc + t.v.encryptedBuffer)[i] == EncryptedAt(k.client, s.v.role, i, s.encs[i])
    {
      FlushedAt(k.client, v0, s, t, i);
    }
  }

  /** Record `i` after a flush: an old one, or the one its batch position makes. */
  lemma FlushedAt(k: Gctr.Key, v0: View, s: Session, t: Session, i: nat)
    requires Sends(k, v0, s) && i < |s.encs| && SumPadded(EncLens(s.v.encryptBuffer)) <= s.v.enc.left && t.v.phase.Online?
    requires t.poppedEnc == s.poppedEnc
    requires t.v.phase.sentRecords == s.v.phase.sentRecords + SentAll(k, s.v.enc, s.v.encryptBuffer, PendingInputs(s))
    requires t.v.encryptedBuffer == s.v.encryptedBuffer + EncryptedAll(k, s.v.role, s.v.encryptBuffer, PendingInputs(s))
    ensures SentAt(k, v0.enc, PushLens(s.encs), i, s.encs[i], t.v.phase.sentRecords[i])
    ensures (t.poppedEnc + t.v.encryptedBuffer)[i] == EncryptedAt(k, s.v.role, i, s.encs[i])
  {
    hide PaddedTo, SentAt, EncryptedAt, SentAll, EncryptedAll, EncLens, PushLens, EncOpAt;
    var n := |s.v.phase.sentRecords|;
    if i >= n {
      BatchAt(v0, s, k, i - n);
    } else {
      assert (t.poppedEnc + t.v.encryptedBuffer)[i] == (s.poppedEnc + s.v.encryptedBuffer)[i];
    }
  }

  lemma EncLeft(v0: View, s: Session, k: Gctr.Key)
    requires Sends(k, v0, s) && SumPadded(EncLens(s.v.encryptBuffer)) <= s.v.enc.left
    ensures PaddedTo(PushLens(s.encs), |s.encs|) <= v0.enc.left
    ensures s.v.enc.left - SumPadded(EncLens(s.v.encryptBuffer)) == v0.enc.left - PaddedTo(PushLens(s.encs), |s.encs|)
  {
    hide Gctr.Apply, Gctr.Tag, PaddedTo, Aad, Be, EncryptedOf, SentRecordOf;
    var n, lens, part := |s.v.phase.sentRecords|, PushLens(s.encs), EncLens(s.v.encryptBuffer);
    assert Continues(lens, n, part) by {
      forall i | 0 <= i < |part|
        ensures lens[n + i] == part[i]
      {
        assert s.v.encryptBuffer[(n + i) - n] == EncOpAt(n + i, s.encs[n + i]);
      }
    }
    PaddedToSplit(lens, n, part, |part|);
  }

  lemma SendsKept(k: Keys, v0: View, s: Session, e: Event)
    requires Within(v0, s) && Sends(k.client, v0, s) && CanStep(k, s, e)
    ensures Sends(k.client, v0, Step(k, s, e))
  {
    hide Gctr.Apply, Gctr.Tag, PaddedTo, Aad, Be, EncryptedOf, SentRecordOf, Flushed, CanFlush, InputsOf, PushedEncrypt, CanPushEncrypt;
    match e
    case PushEncrypt(p) => SendsPush(k, v0, s, p);
    case NextEncrypted => SendsPop(k, v0, s);
    case Flush(isDecrypting) => SendsFlush(k, v0, s, isDecrypting);
    case _ =>
  }

  lemma ReceivesPush(k: Keys, v0: View, s: Session, p: DecPush)
    requires Within(v0, s) && Receives(k.server, v0, s) && CanStep(k, s, PushDecrypt(p))
    ensures Receives(k.server, v0, Step(k, s, PushDecrypt(p)))
  {
    hide Gctr.Apply, PaddedTo, SumTo, Aad, Be, PlainAt, RecvAt, Remaining, RecvLens, RecvPrivateLens;
    RecvLensGrow(s.decs, p);
  }

  lemma ReceivesPop(k: Keys, v0: View, s: Session)
    requires Receives(k.server, v0, s)
    ensures Receives(k.server, v0, Step(k, s, NextDecrypted))
  {
    hide Gctr.Apply, PaddedTo, SumTo, Aad, Be, PlainAt, RecvAt, Remaining, RecvLens, RecvPrivateLens;
    if CanPopDecrypted(s.v) {
      var t := Step(k, s, NextDecrypted);
      assert t.poppedDec + t.v.decryptedBuffer == s.poppedDec + s.v.decryptedBuffer;
    }
  }

  /** The receiving half of a flush of `c` pending operations. */
  lemma FlushReceives(k: Keys, s: Session, isDecrypting: bool)
    requires CanStep(k, s, Flush(isDecrypting))
    ensures var ops := s.v.decryptBuffer[..FlushCount(s.v, isDecrypting)];
      && s.v.phase.Online? && SumPadded(DecLens(ops)) <= s.v.dec.left
      && (s.v.phase.recvOtp.Some? ==> Sum(PrivateLens(ops)) <= |s.v.phase.recvOtp.value|)
      && var t := Step(k, s, Flush(isDecrypting));
         && t.decs == s.decs && t.poppedDec == s.poppedDec && t.v.role == s.v.role
         && t.v.phase.Online? && t.v.decryptBuffer == s.v.decryptBuffer[|ops|..]
         && t.v.phase.recvRecords == s.v.phase.recvRecords + RecvAll(k.server, s.v.role, ops)
         && t.v.decryptedBuffer == s.v.decryptedBuffer + PlainAll(k.server, s.v.role, ops)
         && t.v.dec.left == s.v.dec.left - SumPadded(DecLens(ops))
         && t.v.phase.recvOtp == Remaining(s.v.phase.recvOtp, Sum(PrivateLens(ops)))
  {
    hide Gctr.Apply, Gctr.Tag, EncryptsFit, TagsVerify, SentAll, EncryptedAll, Encryptable, FirstApplicationData;
    var ops := s.v.decryptBuffer[..FlushCount(s.v, isDecrypting)];
    if ops == [] {
      assert RecvAll(k.server, s.v.role, ops) == [] && PlainAll(k.server, s.v.role, ops) == [];
      if s.v.phase.recvOtp.Some? {
        var pad := s.v.phase.recvOtp.value;
        assert pad[..|pad| - 0] == pad;
      }
    }
  }

  /** Lengths of the first `c` pending decrypts continue those of the processed ones. */
  lemma BatchLens(k: Gctr.Key, v0: View, s: Session, c: nat)
    requires Receives(k, v0, s) && c <= |s.v.decryptBuffer|
    ensures var m, ops := |s.v.phase.recvRecords|, s.v.decryptBuffer[..c];
      && PaddedTo(RecvLens(s.decs), m + c) == PaddedTo(RecvLens(s.decs), m) + SumPadded(DecLens(ops))
      && SumTo(RecvPrivateLens(s.decs), m + c) == SumTo(RecvPrivateLens(s.decs), m) + Sum(PrivateLens(ops))
      && SumTo(RecvLens(s.decs), m + c) == SumTo(RecvLens(s.decs), m) + Sum(DecLens(ops))
  {
    hide Gctr.Apply, PaddedTo, SumTo, Aad, Be, PlainAt, RecvAt, Remaining;
    var m, ops := |s.v.phase.recvRecords|, s.v.decryptBuffer[..c];
    forall i | 0 <= i < c
      ensures RecvLens(s.decs)[m + i] == DecLens(ops)[i]
      ensures RecvPrivateLens(s.decs)[m + i] == PrivateLens(ops)[i]
    {
      assert s.v.decryptBuffer[(m + i) - m] == DecOpAt(m + i, s.decs[m + i]);
    }
    PaddedToSplit(RecvLens(s.decs), m, DecLens(ops), c);
    SumToSplit(RecvPrivateLens(s.decs), m, PrivateLens(ops), c);
    SumToSplit(RecvLens(s.decs), m, DecLens(ops), c);
  }

  lemma RemainingTwice(otp: Option<seq<byte>>, used: nat, n: nat)
    requires otp.Some? ==> used <= |otp.value|
    requires Remaining(otp, used).Some? ==> n <= |Remaining(otp, used).value|
    ensures otp.Some? ==> used + n <= |otp.value|
    ensures Remaining(Remaining(otp, used), n) == Remaining(otp, used + n)
  {
    if otp.Some? {
      var pad := otp.value;
      assert pad[..|pad| - used][..|pad| - used - n] == pad[..|pad| - used - n];
    }
  }

  lemma ReceivesFlush(k: Keys, v0: View, s: Session, isDecrypting: bool)
    requires Receives(k.server, v0, s) && CanStep(k, s, Flush(isDecrypting))
    ensures Receives(k.server, v0, Step(k, s, Flush(isDecrypting)))
  {
    hide Gctr.Apply, PaddedTo, SumTo, Aad, Be, Remaining, CanStep, Step, FlushCount, RecvLens, RecvPrivateLens, DecLens, PrivateLens, SumPadded, Sum;
    var t := Step(k, s, Flush(isDecrypting));
    var m, c := |s.v.phase.recvRecords|, FlushCount(s.v, isDecrypting);
    var ops := s.v.decryptBuffer[..c];
    FlushReceives(k, s, isDecrypting);
    BatchLens(k.server, v0, s, c);
    RemainingTwice(v0.phase.recvOtp, SumTo(RecvPrivateLens(s.decs), m), Sum(PrivateLens(ops)));
    forall i | 0 <= i < m + c
      ensures t.v.phase.recvRecords[i] == RecvAt(k.server, s.v.role, i, s.decs[i])
      ensures (t.poppedDec + t.v.decryptedBuffer)[i] == PlainAt(k.server, s.v.role, i, s.decs[i])
    {
      if i >= m {
        assert s.v.decryptBuffer[i - m] == DecOpAt(i, s.decs[i]);
        assert ops[i - m] == DecOpAt(i, s.decs[i]);
      } else {
        assert (t.poppedDec + t.v.decryptedBuffer)[i] == (s.poppedDec + s.v.decryptedBuffer)[i];
      }
    }
    forall i | m + c <= i < |s.decs|
      ensures t.v.decryptBuffer[i - (m + c)] == DecOpAt(i, s.decs[i])
    {
      assert s.v.decryptBuffer[i - m] == DecOpAt(i, s.decs[i]);
    }
  }

  lemma ReceivesKept(k: Keys, v0: View, s: Session, e: Event)
    requires Within(v0, s) && Receives(k.server, v0, s) && CanStep(k, s, e)
    ensures Receives(k.server, v0, Step(k, s, e))
  {
    hide Gctr.Apply, PaddedTo, SumTo, Aad, Be, PlainAt, RecvAt, Remaining, Flushed, CanFlush, InputsOf, PushedDecrypt, CanPushDecrypt;
    match e
    case PushDecrypt(p) => ReceivesPush(k, v0, s, p);
    case NextDecrypted => ReceivesPop(k, v0, s);
    case Flush(isDecrypting) => ReceivesFlush(k, v0, s, isDecrypting);
    case _ =>
  }

  /** Every successful call keeps the invariant. */
  lemma StepKeepsInv(k: Keys, v0: View, s: Session, e: Event)
    requires Inv(k, v0, s) && CanStep(k, s, e)
    ensures Inv(k, v0, Step(k, s, e))
  {
    hide Within, Sends, Receives, Held, CanStep, Step;
    WithinKept(k, v0, s, e);
    SendsKept(k, v0, s, e);
    ReceivesKept(k, v0, s, e);
    HeldKept(k, s, e);
  }

  /** So it holds after every successful run from a fresh allocation. */
  lemma {:induction false} RunKeepsInv(k: Keys, v0: View, s: Session, events: seq<Event>)
    requires Inv(k, v0, s) && Run(k, s, events).Some?
    ensures Inv(k, v0, Run(k, s, events).value)
    decreases |events|
  {
    hide Inv, CanStep, Step;
    if events != [] {
      StepKeepsInv(k, v0, s, events[0]);
      RunKeepsInv(k, v0, Step(k, s, events[0]), events[1..]);
    }
  }
}
