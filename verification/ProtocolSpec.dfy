/**
 * The leader and the follower of an MPC-TLS connection as transition systems. The leader's
 * calls emit messages; the follower's state is a function of the messages it has consumed.
 * What the two compute together (key exchange, PRF, record encryption) is the shared `Vm`.
 */
module ProtocolSpec {
  import opened Bytes
  import opened Parties
  import opened RecordTypes
  import opened RecordLayerSpec
  import Runs = RecordLayerRuns
  import ValidateTranscript

  const SECP256R1: nat := 23

  /** `onCurve`: whether the point parses as a SEC 1 public key. */
  datatype PublicKey = PublicKey(group: nat, point: seq<byte>, onCurve: bool)

  datatype Side = Client | Server

  /** Byte `j` of a side's verify data for a handshake hash. */
  type VerifyData = (Side, seq<byte>, nat) -> byte

  /** The values both parties' virtual machine computes: no party knows the keys in it. */
  datatype Vm = Vm(keys: Keys, vd: VerifyData)

  function Vd(vm: Vm, side: Side, hash: seq<byte>): (r: seq<byte>)
    ensures |r| == 12
  {
    seq(12, j requires 0 <= j => vm.vd(side, hash, j))
  }

  datatype Message =
    | SetServerRandom(random: seq<byte>)
    | SetServerKey(key: PublicKey)
    | ClientFinishedVd(hash: seq<byte>)
    | ServerFinishedVd(hash: seq<byte>)
    | Encrypt(typ: ContentType, version: nat, len: nat, plaintext: Option<seq<byte>>, mode: Mode)
    | Decrypt(typ: ContentType, version: nat, nonce: seq<byte>, ciphertext: seq<byte>, tag: seq<byte>, mode: Mode)
    | StartTraffic
    | Flush(isDecrypting: bool)
    | CloseConnection

  /** A message, and for a flush the private inputs the leader commits to the VM for it. */
  datatype Wire = Wire(msg: Message, inputs: seq<seq<byte>>)

  /** What the PRF is waiting for: the server random, then the hashes, in this order. */
  datatype PrfPhase = SessionKeys | ClientFinished | ServerFinished | PrfComplete

  // ---- Framing ----

  function ModeOf(typ: ContentType): Mode {
    if typ == ApplicationData then Private else Public
  }

  /** Explicit nonce, ciphertext and tag of a record's payload, section 6.2.3.3 of RFC 5246. */
  function Framed(nonce: seq<byte>, ciphertext: seq<byte>, tag: seq<byte>): seq<byte> {
    nonce + ciphertext + tag
  }

  function PartsOf(payload: seq<byte>): (seq<byte>, seq<byte>, seq<byte>)
    requires |payload| >= 24
  {
    (payload[..8], payload[8..|payload| - 16], payload[|payload| - 16..])
  }

  function EncPushOf(typ: ContentType, version: nat, plaintext: seq<byte>): Runs.EncPush {
    Runs.EncPush(typ, version, |plaintext|, Some(plaintext), [], ModeOf(typ))
  }

  function DecPushOf(typ: ContentType, version: nat, payload: seq<byte>): Runs.DecPush
    requires |payload| >= 24
  {
    var (nonce, ciphertext, tag) := PartsOf(payload);
    Runs.DecPush(typ, version, nonce, ciphertext, tag, ModeOf(typ))
  }

  // ---- The leader ----

  datatype LeaderPhase = Init | Setup | Handshake | Active | Closed | Error

  /** `cfVd` and `sfVd` record the verify data handed to the TLS client. */
  datatype LeaderState = LeaderState(
    phase: LeaderPhase, isDecrypting: bool, s: Runs.Session, prf: PrfPhase,
    version: Option<nat>, suite: Option<nat>, serverRandom: Option<seq<byte>>,
    certDetails: Option<seq<byte>>, serverKey: Option<PublicKey>, kxDetails: Option<seq<byte>>,
    cfVd: Option<seq<byte>>, sfVd: Option<seq<byte>>, transcript: Option<TlsTranscript>)

  datatype Call =
    | SetProtocolVersion(version: nat)
    | SetCipherSuite(suite: nat)
    | SetServerRandom(random: seq<byte>)
    | SetServerKeyShare(key: PublicKey)
    | SetServerCertDetails(details: seq<byte>)
    | SetServerKxDetails(details: seq<byte>)
    | PrepareEncryption
    | GetClientFinishedVd(hash: seq<byte>)
    | GetServerFinishedVd(hash: seq<byte>)
    | PushIncoming(typ: ContentType, version: nat, payload: seq<byte>)
    | NextIncoming
    | PushOutgoing(typ: ContentType, version: nat, plaintext: seq<byte>)
    | NextOutgoing
    | StartTraffic
    | Flush
    | DeferDecryption
    | CloseConnection

  predicate WantsFlush(v: View) {
    v.encryptBuffer != [] || v.decryptBuffer != []
  }

  /** What leaves the queues carries its tag and its plaintext. */
  predicate OutputsKnown(v: View) {
    && (forall i :: 0 <= i < |v.encryptedBuffer| ==> v.encryptedBuffer[i].tag.Some?)
    && (forall i :: 0 <= i < |v.decryptedBuffer| ==> v.decryptedBuffer[i].plaintext.Some?)
  }

  predicate Prepared(l: LeaderState) {
    && l.version.Some? && l.suite.Some? && l.serverRandom.Some? && l.certDetails.Some?
    && l.serverKey.Some? && l.kxDetails.Some? && l.serverKey.value.onCurve
  }

  predicate Connected(l: LeaderState) {
    l.phase.Handshake? || l.phase.Active?
  }

  predicate CanCall(vm: Vm, l: LeaderState, c: Call) {
    match c
    case SetProtocolVersion(_) => l.phase.Handshake?
    case SetCipherSuite(_) => l.phase.Handshake?
    case SetServerCertDetails(_) => l.phase.Handshake?
    case SetServerKxDetails(_) => l.phase.Handshake?
    case SetServerRandom(_) => l.phase.Handshake? && l.prf.SessionKeys?
    case SetServerKeyShare(key) => l.phase.Handshake? && key.group == SECP256R1
    case PrepareEncryption => l.phase.Handshake? && Prepared(l) && CanSetup(l.s.v)
    case GetClientFinishedVd(hash) => l.phase.Active? && |hash| == 32 && l.prf.ClientFinished?
    case GetServerFinishedVd(hash) => l.phase.Active? && |hash| == 32 && l.prf.ServerFinished?
    case PushIncoming(typ, version, payload) =>
      // A shorter payload makes the framing code panic.
      Connected(l) && |payload| >= 24 && Runs.CanStep(vm.keys, l.s, Runs.PushDecrypt(DecPushOf(typ, version, payload)))
    case PushOutgoing(typ, version, plaintext) =>
      Connected(l) && Runs.CanStep(vm.keys, l.s, Runs.PushEncrypt(EncPushOf(typ, version, plaintext)))
    case NextIncoming => Connected(l) || l.phase.Closed?
    case NextOutgoing => Connected(l) || l.phase.Closed?
    case StartTraffic => l.phase.Active?
    case Flush =>
      || l.phase.Handshake?
      || ((l.phase.Active? || l.phase.Closed?) &&
          (!WantsFlush(l.s.v) || Runs.CanStep(vm.keys, l.s, Runs.Flush(l.isDecrypting))))
    case DeferDecryption => true
    case CloseConnection => l.phase.Active? && CanCommit(vm.keys, l.s.v)
  }

  function Called(vm: Vm, l: LeaderState, c: Call): LeaderState
    requires CanCall(vm, l, c)
  {
    match c
    case SetProtocolVersion(version) => l.(version := Some(version))
    case SetCipherSuite(suite) => l.(suite := Some(suite))
    case SetServerCertDetails(details) => l.(certDetails := Some(details))
    case SetServerKxDetails(details) => l.(kxDetails := Some(details))
    case SetServerRandom(random) => l.(serverRandom := Some(random), prf := ClientFinished)
    case SetServerKeyShare(key) => l.(serverKey := Some(key))
    case PrepareEncryption => l.(phase := Active, s := Runs.Step(vm.keys, l.s, Runs.Setup))
    case GetClientFinishedVd(hash) => l.(cfVd := Some(Vd(vm, Client, hash)), prf := ServerFinished)
    case GetServerFinishedVd(hash) => l.(sfVd := Some(Vd(vm, Server, hash)), prf := PrfComplete)
    case PushIncoming(typ, version, payload) => l.(s := Runs.Step(vm.keys, l.s, Runs.PushDecrypt(DecPushOf(typ, version, payload))))
    case PushOutgoing(typ, version, plaintext) => l.(s := Runs.Step(vm.keys, l.s, Runs.PushEncrypt(EncPushOf(typ, version, plaintext))))
    case NextIncoming => l.(s := Runs.Step(vm.keys, l.s, Runs.NextDecrypted))
    case NextOutgoing => l.(s := Runs.Step(vm.keys, l.s, Runs.NextEncrypted))
    case StartTraffic => l.(s := Runs.Step(vm.keys, l.s, Runs.StartTraffic))
    case Flush =>
      if l.phase.Handshake? || !WantsFlush(l.s.v) then l
      else l.(s := Runs.Step(vm.keys, l.s, Runs.Flush(l.isDecrypting)))
    case DeferDecryption => l.(isDecrypting := false)
    case CloseConnection =>
      l.(phase := Closed, s := l.s.(v := Committed(vm.keys, l.s.v)), transcript := Some(TranscriptOf(vm.keys, l.s.v)))
  }

  /** The messages a successful call sends. */
  function Emitted(vm: Vm, l: LeaderState, c: Call): seq<Wire>
    requires CanCall(vm, l, c)
  {
    match c
    case SetServerRandom(random) => [Wire(Message.SetServerRandom(random), [])]
    case SetServerKeyShare(key) => [Wire(SetServerKey(key), [])]
    case GetClientFinishedVd(hash) => [Wire(ClientFinishedVd(hash), [])]
    case GetServerFinishedVd(hash) => [Wire(ServerFinishedVd(hash), [])]
    case PushIncoming(typ, version, payload) =>
      var (nonce, ciphertext, tag) := PartsOf(payload);
      [Wire(Decrypt(typ, version, nonce, ciphertext, tag, ModeOf(typ)), [])]
    case PushOutgoing(typ, version, plaintext) =>
      [Wire(Encrypt(typ, version, |plaintext|, if ModeOf(typ).Private? then None else Some(plaintext), ModeOf(typ)), [])]
    case StartTraffic => [Wire(Message.StartTraffic, [])]
    case Flush =>
      if l.phase.Handshake? || !WantsFlush(l.s.v) then []
      else [Wire(Message.Flush(l.isDecrypting), Runs.PendingInputs(l.s))]
    case CloseConnection => [Wire(Message.CloseConnection, [])]
    case _ => []
  }

  /** A sequence of calls that all succeed, and everything they sent. */
  function LeaderRun(vm: Vm, l: LeaderState, calls: seq<Call>): Option<(LeaderState, seq<Wire>)>
    decreases |calls|
  {
    if calls == [] then Some((l, []))
    else if !CanCall(vm, l, calls[0]) then None
    else
      match LeaderRun(vm, Called(vm, l, calls[0]), calls[1..])
      case None => None
      case Some((end, sent)) => Some((end, Emitted(vm, l, calls[0]) + sent))
  }

  /** After allocation and preprocessing. */
  predicate LeaderStart(l: LeaderState) {
    && l.phase.Handshake? && Runs.Fresh(l.s.v) && l.s == Runs.Begin(l.s.v) && l.s.v.role.Leader?
    && l.prf.SessionKeys? && l.serverRandom.None? && l.serverKey.None?
    && l.cfVd.None? && l.sfVd.None? && l.transcript.None?
  }

  // ---- The follower ----

  datatype FollowerState = FollowerState(
    v: View, prf: PrfPhase, serverRandom: Option<seq<byte>>, serverKey: Option<PublicKey>,
    cfVd: Option<seq<byte>>, sfVd: Option<seq<byte>>, transcript: Option<TlsTranscript>)

  predicate CanReceive(vm: Vm, f: FollowerState, w: Wire) {
    match w.msg
    case SetServerRandom(_) => f.serverRandom.None? && f.prf.SessionKeys?
    case SetServerKey(key) => f.serverKey.None? && key.group == SECP256R1 && key.onCurve && CanSetup(f.v)
    case ClientFinishedVd(_) => f.cfVd.None? && f.prf.ClientFinished?
    case ServerFinishedVd(_) => f.sfVd.None? && f.prf.ServerFinished?
    case Encrypt(typ, version, len, plaintext, mode) => CanPushEncrypt(f.v, len, plaintext, mode)
    case Decrypt(typ, version, nonce, ciphertext, tag, mode) => CanPushDecrypt(f.v, ciphertext)
    case StartTraffic => true
    case Flush(isDecrypting) => CanFlush(vm.keys, f.v, isDecrypting) && InputsOf(f.v.encryptBuffer, w.inputs)
    case CloseConnection => CanCommit(vm.keys, f.v)
  }

  function Received(vm: Vm, f: FollowerState, w: Wire): FollowerState
    requires CanReceive(vm, f, w)
  {
    match w.msg
    case SetServerRandom(random) => f.(serverRandom := Some(random), prf := ClientFinished)
    case SetServerKey(key) => f.(serverKey := Some(key), v := ReadyToFlush(f.v))
    case ClientFinishedVd(hash) => f.(cfVd := Some(Vd(vm, Client, hash)), prf := ServerFinished)
    case ServerFinishedVd(hash) => f.(sfVd := Some(Vd(vm, Server, hash)), prf := PrfComplete)
    case Encrypt(typ, version, len, plaintext, mode) => f.(v := PushedEncrypt(f.v, typ, version, len, plaintext, mode))
    case Decrypt(typ, version, nonce, ciphertext, tag, mode) =>
      f.(v := PushedDecrypt(f.v, typ, version, nonce, ciphertext, tag, mode))
    case StartTraffic => f.(v := f.v.(started := true))
    case Flush(isDecrypting) => f.(v := Flushed(vm.keys, f.v, isDecrypting, w.inputs))
    case CloseConnection => f.(v := Committed(vm.keys, f.v), transcript := Some(TranscriptOf(vm.keys, f.v)))
  }

  /** The message loop: it stops at the close, or fails. */
  function FollowerRun(vm: Vm, f: FollowerState, wires: seq<Wire>): Option<FollowerState>
    decreases |wires|
  {
    if wires == [] || f.transcript.Some? then Some(f)
    else if !CanReceive(vm, f, wires[0]) then None
    else FollowerRun(vm, Received(vm, f, wires[0]), wires[1..])
  }

  /** What the follower requires of a closed connection. */
  predicate Accepts(f: FollowerState) {
    && f.transcript.Some? && f.serverKey.Some?
    && f.cfVd.Some? && |f.cfVd.value| == 12 && f.sfVd.Some? && |f.sfVd.value| == 12
    && ValidateTranscript.IsSession(f.cfVd.value, f.transcript.value.sent)
    && ValidateTranscript.IsSession(f.sfVd.value, f.transcript.value.recv)
  }

  predicate FollowerStart(f: FollowerState) {
    && Runs.Fresh(f.v) && f.v.role.Follower?
    && f.prf.SessionKeys? && f.serverRandom.None? && f.serverKey.None?
    && f.cfVd.None? && f.sfVd.None? && f.transcript.None?
  }
}
