/** The follower's check of a committed transcript, with the parsers it relies on. */
module ValidateTranscript {
  import opened Bytes
  import opened RecordTypes

  const FINISHED: byte := 20
  const CLOSE_NOTIFY: byte := 0

  // ---- Parsing ----

  /** A cursor over a byte slice. */
  class Reader {
    const buf: seq<byte>
    var offs: nat

    constructor (buf: seq<byte>)
      ensures this.buf == buf && offs == 0 && Valid()
    {
      this.buf := buf;
      offs := 0;
    }

    ghost predicate Valid()
      reads this
    {
      offs <= |buf|
    }

    ghost function Left(): seq<byte>
      reads this
      requires Valid()
    {
      buf[offs..]
    }

    method Take(len: nat) returns (r: Option<seq<byte>>)
      requires Valid()
      modifies this
      ensures Valid() && (r.Some? <==> len <= |old(Left())|)
      ensures r.Some? ==> |r.value| == len && r.value + Left() == old(Left())
    {
      if |buf| - offs < len { return None; }
      r := Some(buf[offs..offs + len]);
      offs := offs + len;
    }

    method Rest() returns (r: seq<byte>)
      requires Valid()
      modifies this
      ensures Valid() && r == old(Left()) && Left() == []
    {
      r := buf[offs..];
      offs := |buf|;
    }
  }

  function U24(b: seq<byte>): nat
    requires |b| == 3
  {
    b[0] as nat * 0x1_0000 + b[1] as nat * 0x100 + b[2] as nat
  }

  /**
   * The body of a Finished handshake message, or None for anything else: another type, a
   * malformed message. The declared length bounds the body; what follows it is not looked at.
   */
  method ReadFinished(plaintext: seq<byte>) returns (r: Option<seq<byte>>)
    ensures r.Some? <==> |plaintext| >= 4 && plaintext[0] == FINISHED && 4 + U24(plaintext[1..4]) <= |plaintext|
    ensures r.Some? ==> |r.value| == U24(plaintext[1..4]) && r.value <= plaintext[4..]
  {
    var reader := new Reader(plaintext);
    var typ := reader.Take(1);
    if typ.None? { return None; }
    var len := reader.Take(3);
    if len.None? { return None; }
    assert plaintext == typ.value + len.value + reader.Left();
    assert plaintext[4..] == reader.Left() && plaintext[1..4] == len.value;
    var body := reader.Take(U24(len.value));
    if body.None? { return None; }
    var sub := new Reader(body.value);
    if typ.value[0] != FINISHED { return None; }
    var verifyData := sub.Rest();
    return Some(verifyData);
  }

  /** Section 7.4.9 of RFC 5246 in its handshake framing, section 7.4. */
  function FinishedMessage(verifyData: seq<byte>): seq<byte>
    requires |verifyData| == 12
  {
    [FINISHED, 0, 0, 12] + verifyData
  }

  /** The record's plaintext is visible and opens with the expected Finished message. */
  predicate IsFinished(verifyData: seq<byte>, record: Record)
    requires |verifyData| == 12
  {
    record.plaintext.Some? && FinishedMessage(verifyData) <= record.plaintext.value
  }

  lemma SmallByte(b: byte)
    ensures (b as nat == 0 <==> b == 0) && (b as nat == 12 <==> b == 12)
  {
  }

  lemma DigitsOfTwelve(x: nat, y: nat, z: nat)
    requires x < 256 && y < 256 && z < 256
    ensures x * 0x1_0000 + y * 0x100 + z == 12 <==> x == 0 && y == 0 && z == 12
  {
  }

  lemma LengthTwelve(b: seq<byte>)
    requires |b| == 3
    ensures U24(b) == 12 <==> b[0] == 0 && b[1] == 0 && b[2] == 12
  {
    DigitsOfTwelve(b[0] as nat, b[1] as nat, b[2] as nat);
    SmallByte(b[0]);
    SmallByte(b[1]);
    SmallByte(b[2]);
  }

  lemma OpensWith(plaintext: seq<byte>, body: seq<byte>, verifyData: seq<byte>)
    requires |verifyData| == 12
    requires |plaintext| >= 4 && plaintext[0] == FINISHED && 4 + U24(plaintext[1..4]) <= |plaintext|
    requires |body| == U24(plaintext[1..4]) && body <= plaintext[4..]
    ensures body == verifyData <==> FinishedMessage(verifyData) <= plaintext
  {
    hide U24;
    LengthTwelve(plaintext[1..4]);
    if body == verifyData {
      assert plaintext[..4] == [plaintext[0]] + plaintext[1..4];
      assert plaintext[..16] == plaintext[..4] + plaintext[4..][..12];
    }
    if FinishedMessage(verifyData) <= plaintext {
      assert plaintext[1..4] == plaintext[..16][1..4] == [0, 0, 12];
      assert plaintext[4..][..12] == plaintext[..16][4..] == verifyData;
    }
  }

  lemma FinishedParses(verifyData: seq<byte>, plaintext: seq<byte>)
    requires |verifyData| == 12
    ensures FinishedMessage(verifyData) <= plaintext ==>
      |plaintext| >= 16 && plaintext[0] == FINISHED && U24(plaintext[1..4]) == 12
  {
    hide U24;
    if FinishedMessage(verifyData) <= plaintext {
      assert plaintext[1..4] == [0, 0, 12];
      LengthTwelve(plaintext[1..4]);
    }
  }

  method CheckFinished(verifyData: seq<byte>, record: Record) returns (r: Result<(), TranscriptError>)
    requires |verifyData| == 12
    ensures r.Ok? <==> IsFinished(verifyData, record)
  {
    if record.plaintext.None? { return Err(Hidden); }
    var plaintext := record.plaintext.value;
    FinishedParses(verifyData, plaintext);
    var actual := ReadFinished(plaintext);
    if actual.None? { return Err(NotFinished); }
    OpensWith(plaintext, actual.value, verifyData);
    if actual.value != verifyData { return Err(WrongVerifyData); }
    return Ok(());
  }

  /** A visible alert with that description, section 7.2.1 of RFC 5246; its level is not looked at. */
  predicate IsCloseNotify(record: Record) {
    && record.typ == Alert
    && record.plaintext.Some? && |record.plaintext.value| >= 2 && record.plaintext.value[1] == CLOSE_NOTIFY
  }

  method CheckLast(record: Record) returns (r: Result<(), TranscriptError>)
    ensures r.Ok? <==> record.typ == ApplicationData || IsCloseNotify(record)
  {
    match record.typ {
      case ApplicationData => return Ok(());
      case Alert =>
        if record.plaintext.None? { return Err(Hidden); }
        var reader := new Reader(record.plaintext.value);
        var level := reader.Take(1);
        if level.None? { return Err(Malformed); }
        var description := reader.Take(1);
        if description.None? { return Err(Malformed); }
        assert record.plaintext.value[1..][0] == description.value[0] by {
          assert record.plaintext.value == level.value + description.value + reader.Left();
        }
        if description.value[0] != CLOSE_NOTIFY { return Err(NotCloseNotify); }
        return Ok(());
      case _ => return Err(UnexpectedType);
    }
  }

  datatype TranscriptError = NoRecords | Hidden | NotFinished | WrongVerifyData | Malformed | NotCloseNotify | UnexpectedType

  // ---- The check ----

  /** Application data, then at most one close notify: as a grammar, read from the front. */
  predicate IsTraffic(records: seq<Record>) {
    records == []
    || (records[0].typ == ApplicationData && IsTraffic(records[1..]))
    || (|records| == 1 && IsCloseNotify(records[0]))
  }

  predicate IsSession(verifyData: seq<byte>, records: seq<Record>)
    requires |verifyData| == 12
  {
    records != [] && IsFinished(verifyData, records[0]) && IsTraffic(records[1..])
  }

  /** Looking at the last record first and then at the others from the front decides the same language. */
  lemma {:induction false} BackThenFront(records: seq<Record>)
    ensures IsTraffic(records) <==>
      (records != [] ==>
        var last := records[|records| - 1];
        && (last.typ == ApplicationData || IsCloseNotify(last))
        && forall i :: 0 <= i < |records| - 1 ==> records[i].typ == ApplicationData)
  {
    if |records| > 1 {
      BackThenFront(records[1..]);
      assert records[1..][|records| - 2] == records[|records| - 1];
      if IsTraffic(records) {
        forall i | 0 <= i < |records| - 1
          ensures records[i].typ == ApplicationData
        {
          if i > 0 {
            assert records[1..][i - 1] == records[i];
          }
        }
      }
    }
  }

  /** Record by record: the Finished message, application data, and at the end possibly a visible close notify. */
  lemma SessionWhen(verifyData: seq<byte>, records: seq<Record>)
    requires |verifyData| == 12
    ensures IsSession(verifyData, records) <==>
      && records != [] && records[0].plaintext.Some? && [20, 0, 0, 12] + verifyData <= records[0].plaintext.value
      && (forall i :: 1 <= i < |records| - 1 ==> records[i].typ == ApplicationData)
      && (|records| > 1 ==>
            var last := records[|records| - 1];
            || last.typ == ApplicationData
            || (last.typ == Alert && last.plaintext.Some? && |last.plaintext.value| >= 2 && last.plaintext.value[1] == 0))
  {
    hide IsTraffic;
    if records != [] {
      var rest := records[1..];
      BackThenFront(rest);
      assert forall i :: 0 <= i < |rest| ==> rest[i] == records[i + 1];
      assert (forall i :: 0 <= i < |rest| - 1 ==> rest[i].typ == ApplicationData)
        <==> (forall i :: 1 <= i < |records| - 1 ==> records[i].typ == ApplicationData) by {
        assert forall i :: 1 <= i < |records| - 1 ==> records[i] == rest[i - 1];
      }
    }
  }

  predicate AllApplicationData(records: seq<Record>) {
    forall i :: 0 <= i < |records| ==> records[i].typ == ApplicationData
  }

  lemma SplitAtLast(records: seq<Record>, middle: seq<Record>, last: Option<Record>)
    requires if last.Some? then records == middle + [last.value] else records == middle == []
    ensures IsTraffic(records) <==>
      && (last.Some? ==> last.value.typ == ApplicationData || IsCloseNotify(last.value))
      && AllApplicationData(middle)
  {
    BackThenFront(records);
    if last.Some? {
      assert forall i :: 0 <= i < |middle| ==> records[i] == middle[i];
    }
  }

  /** A double-ended iterator over records. */
  class RecordIter {
    const records: seq<Record>
    var front: nat
    var back: nat

    constructor (records: seq<Record>)
      ensures this.records == records && Valid() && Rest() == records
    {
      this.records := records;
      front, back := 0, |records|;
    }

    ghost predicate Valid()
      reads this
    {
      front <= back <= |records|
    }

    ghost function Rest(): seq<Record>
      reads this
      requires Valid()
    {
      records[front..back]
    }

    method Next() returns (r: Option<Record>)
      requires Valid()
      modifies this
      ensures Valid() && (r.Some? <==> old(Rest()) != [])
      ensures if r.Some? then old(Rest()) == [r.value] + Rest() else Rest() == []
    {
      if front == back { return None; }
      r := Some(records[front]);
      front := front + 1;
    }

    method NextBack() returns (r: Option<Record>)
      requires Valid()
      modifies this
      ensures Valid() && (r.Some? <==> old(Rest()) != [])
      ensures if r.Some? then old(Rest()) == Rest() + [r.value] else Rest() == []
    {
      if front == back { return None; }
      back := back - 1;
      r := Some(records[back]);
    }
  }

  /** The loop over what is left between the two ends. */
  method CheckMiddle(iter: RecordIter) returns (r: Result<(), TranscriptError>)
    requires iter.Valid()
    modifies iter
    ensures r.Ok? <==> AllApplicationData(old(iter.Rest()))
  {
    ghost var all := iter.Rest();
    ghost var n := 0;
    var next := iter.Next();
    while next.Some?
      invariant iter.Valid() && n <= |all|
      invariant if next.Some? then all[n..] == [next.value] + iter.Rest() else n == |all|
      invariant forall i :: 0 <= i < n ==> all[i].typ == ApplicationData
      decreases |all| - n, next.Some?
    {
      assert all[n] == all[n..][0] == next.value;
      if next.value.typ != ApplicationData { return Err(UnexpectedType); }
      assert iter.Rest() == all[n..][1..] == all[n + 1..];
      n := n + 1;
      next := iter.Next();
    }
    return Ok(());
  }

  method ValidateTranscript(cfVd: seq<byte>, sfVd: seq<byte>, transcript: TlsTranscript)
    returns (r: Result<(), TranscriptError>)
    requires |cfVd| == |sfVd| == 12
    ensures r.Ok? <==> IsSession(cfVd, transcript.sent) && IsSession(sfVd, transcript.recv)
    ensures r.Ok? ==>
      && transcript.sent != [] && transcript.sent[0].plaintext.Some? && [20, 0, 0, 12] + cfVd <= transcript.sent[0].plaintext.value
      && transcript.recv != [] && transcript.recv[0].plaintext.Some? && [20, 0, 0, 12] + sfVd <= transcript.recv[0].plaintext.value
  {
    SessionWhen(cfVd, transcript.sent);
    SessionWhen(sfVd, transcript.recv);
    hide IsSession, IsFinished, IsCloseNotify, IsTraffic, AllApplicationData;
    var sent := new RecordIter(transcript.sent);
    var recv := new RecordIter(transcript.recv);

    var first := sent.Next();
    if first.None? { return Err(NoRecords); }
    r := CheckFinished(cfVd, first.value);
    if r.Err? { return; }
    first := recv.Next();
    if first.None? { return Err(NoRecords); }
    r := CheckFinished(sfVd, first.value);
    if r.Err? { return; }

    ghost var sentRest, recvRest := sent.Rest(), recv.Rest();
    assert sentRest == transcript.sent[1..] && recvRest == transcript.recv[1..];
    var last := sent.NextBack();
    SplitAtLast(sentRest, sent.Rest(), last);
    if last.Some? {
      r := CheckLast(last.value);
      if r.Err? { return; }
    }
    last := recv.NextBack();
    SplitAtLast(recvRest, recv.Rest(), last);
    if last.Some? {
      r := CheckLast(last.value);
      if r.Err? { return; }
    }

    r := CheckMiddle(sent);
    if r.Err? { return; }
    r := CheckMiddle(recv);
  }
}
