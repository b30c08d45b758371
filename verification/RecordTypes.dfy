/** Values exchanged between the record layer, the two parties and the transcript. */
module RecordTypes {
  import opened Bytes

  datatype ContentType =
    | ChangeCipherSpec | Alert | Handshake | ApplicationData | Heartbeat
    | Unknown(code: nat)

  /** Whether a record's plaintext is hidden from the follower. */
  datatype Mode = Private | Public

  /** A VM reference to a vector of bytes. */
  datatype Slice = Slice(ptr: nat, len: nat)

  /** A record of the TLS transcript. */
  datatype Record = Record(
    seqNo: nat, typ: ContentType, plaintext: Option<seq<byte>>, plaintextRef: Option<Slice>,
    nonce: seq<byte>, ciphertext: seq<byte>)

  datatype TlsTranscript = TlsTranscript(sent: seq<Record>, recv: seq<Record>)

  datatype PlainRecord = PlainRecord(typ: ContentType, version: nat, plaintext: Option<seq<byte>>)

  datatype EncryptedRecord = EncryptedRecord(
    typ: ContentType, version: nat, nonce: seq<byte>, ciphertext: seq<byte>, tag: Option<seq<byte>>)

  function TypeCode(typ: ContentType): nat {
    match typ
    case ChangeCipherSpec => 20
    case Alert => 21
    case Handshake => 22
    case ApplicationData => 23
    case Heartbeat => 24
    case Unknown(code) => code
  }

  /** The additional data of a TLS 1.2 record, section 6.2.3.3 of RFC 5246. */
  function Aad(seqNo: nat, typ: ContentType, version: nat, len: nat): (r: seq<byte>)
    ensures |r| == 13
  {
    Be(seqNo, 8) + Be(TypeCode(typ), 1) + Be(version, 2) + Be(len, 2)
  }

  /** Its fields can be read back in the standard's order: number, type, version, length. */
  lemma AadReads(seqNo: nat, typ: ContentType, version: nat, len: nat)
    requires seqNo < Pow256(8) && TypeCode(typ) < Pow256(1) && version < Pow256(2) && len < Pow256(2)
    ensures var a := Aad(seqNo, typ, version, len);
      FromBe(a[..8]) == seqNo && FromBe(a[8..9]) == TypeCode(typ) && FromBe(a[9..11]) == version && FromBe(a[11..]) == len
  {
    hide Be, FromBe, Pow256;
    var a := Aad(seqNo, typ, version, len);
    assert a[..8] == Be(seqNo, 8) && a[8..9] == Be(TypeCode(typ), 1) && a[9..11] == Be(version, 2) && a[11..] == Be(len, 2);
    BeRoundTrip(seqNo, 8);
    BeRoundTrip(TypeCode(typ), 1);
    BeRoundTrip(version, 2);
    BeRoundTrip(len, 2);
  }

  /** The codes of section 6.2.1 of RFC 5246 and of RFC 6520. */
  lemma TypeCodes()
    ensures TypeCode(ChangeCipherSpec) == 20 && TypeCode(Alert) == 21 && TypeCode(Handshake) == 22
    ensures TypeCode(ApplicationData) == 23 && TypeCode(Heartbeat) == 24
  {
  }
}
