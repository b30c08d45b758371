/** VM references to the application data of a transcript, and lookup of transcript positions in them. */
module TranscriptRefs {
  import opened Bytes
  import opened RecordTypes
  import opened Ranges

  datatype Direction = Sent | Received

  datatype Transcript = Transcript(sent: seq<byte>, received: seq<byte>)

  datatype TranscriptError = Incomplete

  // ---- Addresses ----

  function SliceAddrs(s: Slice): (r: seq<nat>)
    ensures |r| == s.len && forall i :: 0 <= i < s.len ==> r[i] == s.ptr + i
  {
    seq(s.len, i requires 0 <= i < s.len => s.ptr + i)
  }

  /** The addresses of the first `n` slices, one after the other. */
  function AddrsTo(slices: seq<Slice>, n: nat): seq<nat>
    requires n <= |slices|
    decreases n
  {
    if n == 0 then [] else AddrsTo(slices, n - 1) + SliceAddrs(slices[n - 1])
  }

  /** Item `x` is the address of transcript position `x`. */
  function Addrs(slices: seq<Slice>): seq<nat> {
    AddrsTo(slices, |slices|)
  }

  lemma AddrsStep(slices: seq<Slice>, n: nat)
    requires n < |slices|
    ensures AddrsTo(slices, n + 1) == AddrsTo(slices, n) + SliceAddrs(slices[n])
    ensures |AddrsTo(slices, n + 1)| == |AddrsTo(slices, n)| + slices[n].len
  {
  }

  lemma {:induction false} AddrsPrefix(slices: seq<Slice>, n: nat)
    requires n <= |slices|
    ensures AddrsTo(slices, n) <= Addrs(slices)
    decreases |slices| - n
  {
    if n < |slices| {
      AddrsPrefix(slices, n + 1);
    }
  }

  lemma {:induction false} AddrsExtends(slices: seq<Slice>, more: seq<Slice>, n: nat)
    requires n <= |slices|
    ensures AddrsTo(slices + more, n) == AddrsTo(slices, n)
    decreases n
  {
    if n > 0 {
      AddrsExtends(slices, more, n - 1);
    }
  }

  lemma AddrsAppend(slices: seq<Slice>, s: Slice)
    ensures Addrs(slices + [s]) == Addrs(slices) + SliceAddrs(s)
  {
    AddrsExtends(slices, [s], |slices|);
  }

  /** The addresses of positions `lo` to `hi`, when they lie in slice `n`. */
  lemma AddrsWithin(slices: seq<Slice>, n: nat, lo: nat, hi: nat)
    requires n < |slices| && |AddrsTo(slices, n)| <= lo <= hi <= |AddrsTo(slices, n + 1)|
    ensures |AddrsTo(slices, n + 1)| <= |Addrs(slices)|
    ensures lo - |AddrsTo(slices, n)| + (hi - lo) <= slices[n].len
    ensures SliceAddrs(Slice(slices[n].ptr + (lo - |AddrsTo(slices, n)|), hi - lo)) == Addrs(slices)[lo..hi]
  {
    hide AddrsTo;
    AddrsStep(slices, n);
    AddrsPrefix(slices, n + 1);
    var before, all := AddrsTo(slices, n), Addrs(slices);
    forall i | 0 <= i < hi - lo
      ensures all[lo..hi][i] == slices[n].ptr + (lo - |before|) + i
    {
      assert all[lo + i] == AddrsTo(slices, n + 1)[lo + i] == SliceAddrs(slices[n])[lo + i - |before|];
    }
  }

  // ---- Lookup ----

  function Intersection(a: Range, b: Range): Option<Range> {
    var start, end := Max(a.start, b.start), if a.end < b.end then a.end else b.end;
    if start < end then Some(Range(start, end)) else None
  }

  /** The part of `r` below position `x`. */
  function Part<T>(all: seq<T>, r: Range, x: nat): seq<T>
    requires x <= |all| && r.start <= r.end
  {
    if x <= r.start then [] else if x < r.end then all[r.start..x] else all[r.start..r.end]
  }

  /** Slice `n` contributes exactly the part of `r` between its two ends. */
  lemma SliceContributes(refs: seq<Slice>, n: nat, r: Range, slices: seq<Slice>, before: seq<nat>)
    requires n < |refs| && r.start < r.end
    requires |AddrsTo(refs, n)| <= |Addrs(refs)| && Addrs(slices) == before + Part(Addrs(refs), r, |AddrsTo(refs, n)|)
    ensures var lo, hi := |AddrsTo(refs, n)|, |AddrsTo(refs, n + 1)|;
      var part := Intersection(Range(lo, hi), r);
      && lo <= hi <= |Addrs(refs)|
      && (part.None? ==> Addrs(slices) == before + Part(Addrs(refs), r, hi))
      && (part.Some? ==>
            && lo <= part.value.start < part.value.end <= lo + refs[n].len
            && Addrs(slices + [Slice(refs[n].ptr + (part.value.start - lo), part.value.end - part.value.start)])
               == before + Part(Addrs(refs), r, hi))
  {
    hide AddrsTo, Addrs, Part, Intersection;
    AddrsStep(refs, n);
    AddrsPrefix(refs, n + 1);
    var lo, hi, all := |AddrsTo(refs, n)|, |AddrsTo(refs, n + 1)|, Addrs(refs);
    var part := Intersection(Range(lo, hi), r);
    PartJoin(all, r, lo, hi);
    if part.Some? {
      var from, to := part.value.start, part.value.end;
      AddrsWithin(refs, n, from, to);
      AddrsAppend(slices, Slice(refs[n].ptr + (from - lo), to - from));
      assert before + Part(all, r, lo) + all[from..to] == before + (Part(all, r, lo) + all[from..to]);
    }
  }

  lemma PartJoin<T>(all: seq<T>, r: Range, lo: nat, hi: nat)
    requires lo <= hi <= |all| && r.start < r.end
    ensures var part := Intersection(Range(lo, hi), r);
      && (part.None? ==> Part(all, r, hi) == Part(all, r, lo))
      && (part.Some? ==> lo <= part.value.start < part.value.end <= hi
                         && Part(all, r, hi) == Part(all, r, lo) + all[part.value.start..part.value.end])
  {
  }

  lemma AddrsEnds(refs: seq<Slice>)
    ensures AddrsTo(refs, 0) == [] && Addrs([]) == [] && AddrsTo(refs, |refs|) == Addrs(refs)
  {
  }

  lemma PartNone<T>(all: seq<T>, r: Range, x: nat)
    requires x <= |all| && r.start <= r.end
    ensures x <= r.start ==> Part(all, r, x) == []
  {
  }

  lemma PartAll<T>(all: seq<T>, r: Range, x: nat)
    requires r.start < r.end <= x <= |all|
    ensures Part(all, r, x) == all[r.start..r.end]
  {
  }

  lemma EndAbove(idx: Idx, j: nat, n: nat)
    requires j < |idx| && idx[j].end > n
    ensures End(idx) > n
  {
  }

  /** Ranges up to `j` are in bounds, and gathering one more appends it. */
  lemma GatherNext<T>(all: seq<T>, idx: Idx, j: nat)
    requires j < |idx| && InBounds(idx[..j], |all|)
    ensures Normal(idx[..j]) && Normal(idx[..j + 1]) && idx[j].start < idx[j].end
    ensures idx[j].end <= |all| ==>
      InBounds(idx[..j + 1], |all|) && Gather(all, idx[..j + 1]) == Gather(all, idx[..j]) + all[idx[j].start..idx[j].end]
    ensures j > 0 ==> idx[j - 1].end < idx[j].start
  {
    hide Gather;
    PrefixNormal(idx, j + 1);
    if idx[j].end <= |all| {
      var upTo := idx[..j + 1];
      forall i | 0 <= i < |upTo|
        ensures upTo[i].end <= |all|
      {
        assert i < j ==> idx[..j][i] == idx[i];
      }
      GatherUpTo(all, idx, j);
    }
  }

  datatype TranscriptRefs = TranscriptRefs(sent: seq<Slice>, recv: seq<Slice>) {
    function Refs(direction: Direction): seq<Slice> {
      match direction
      case Sent => sent
      case Received => recv
    }

    /**
     * References for an index, or None. One cursor walks the slices, one the ranges; the slices
     * returned name exactly the indexed positions, in order.
     */
    method Get(direction: Direction, idx: Idx) returns (r: Option<seq<Slice>>)
      ensures r.None? <==> idx != [] && End(idx) > |Addrs(Refs(direction))|
      ensures r.Some? ==>
        && InBounds(idx, |Addrs(Refs(direction))|)
        && Addrs(r.value) == Gather(Addrs(Refs(direction)), idx)
    {
      hide Gather, AddrsTo, Addrs, Intersection, Part;
      if idx == [] {
        AddrsEnds([]);
        GatherNone(Addrs(Refs(direction)));
        return Some([]);
      }
      var refs := match direction case Sent => sent case Received => recv;
      ghost var all := Addrs(refs);
      AddrsEnds(refs);
      GatherNone(all);
      if refs == [] {
        GatherNext(all, idx, 0);
        EndAbove(idx, 0, 0);
        return None;
      }
      var slices: seq<Slice> := [];
      var n := 0;
      var sliceRange := Range(0, refs[0].len);
      AddrsStep(refs, 0);
      for j := 0 to |idx|
        invariant n < |refs| && sliceRange == Range(|AddrsTo(refs, n)|, |AddrsTo(refs, n + 1)|)
        invariant j > 0 ==> sliceRange.start <= idx[j - 1].end
        invariant j == 0 ==> sliceRange.start == 0
        invariant Normal(idx[..j]) && InBounds(idx[..j], |all|) && Addrs(slices) == Gather(all, idx[..j])
      {
        var range := idx[j];
        GatherNext(all, idx, j);
        ghost var before := Addrs(slices);
        AddrsPrefix(refs, n);
        PartNone(all, range, sliceRange.start);
        while true
          invariant n < |refs| && sliceRange == Range(|AddrsTo(refs, n)|, |AddrsTo(refs, n + 1)|)
          invariant sliceRange.start <= range.end && sliceRange.start <= |all|
          invariant Addrs(slices) == before + Part(all, range, sliceRange.start)
          decreases |refs| - n
        {
          SliceContributes(refs, n, range, slices, before);
          var intersection := Intersection(sliceRange, range);
          if intersection.Some? {
            var start := intersection.value.start - sliceRange.start;
            var end := intersection.value.end - sliceRange.start;
            slices := slices + [Slice(refs[n].ptr + start, end - start)];
          }
          if range.end <= sliceRange.end {
            PartAll(all, range, sliceRange.end);
            break;
          }
          if n + 1 == |refs| {
            EndAbove(idx, j, |all|);
            return None;
          }
          n := n + 1;
          AddrsStep(refs, n);
          sliceRange := Range(sliceRange.end, sliceRange.end + refs[n].len);
        }
      }
      assert idx[..|idx|] == idx;
      return Some(slices);
    }
  }

  // ---- Building them from the records ----

  function ApplicationRecords(records: seq<Record>): seq<Record> {
    if records == [] then []
    else ApplicationRecords(records[..|records| - 1]) + if records[|records| - 1].typ == ApplicationData then [records[|records| - 1]] else []
  }

  /** The application plaintext of records that all have one. */
  function Plaintexts(records: seq<Record>): seq<byte>
    requires forall i :: 0 <= i < |records| ==> records[i].plaintext.Some?
  {
    if records == [] then [] else Plaintexts(records[..|records| - 1]) + records[|records| - 1].plaintext.value
  }

  function RefsOf(records: seq<Record>): (r: seq<Slice>)
    requires forall i :: 0 <= i < |records| ==> records[i].plaintextRef.Some?
    ensures |r| == |records|
  {
    seq(|records|, i requires 0 <= i < |records| => records[i].plaintextRef.value)
  }

  predicate AllPlain(records: seq<Record>) {
    forall i :: 0 <= i < |records| ==> records[i].plaintext.Some?
  }

  predicate AllReferenced(records: seq<Record>) {
    forall i :: 0 <= i < |records| ==> records[i].plaintextRef.Some?
  }

  lemma ApplicationStep(records: seq<Record>, i: nat)
    requires i < |records|
    ensures ApplicationRecords(records[..i + 1]) ==
            ApplicationRecords(records[..i]) + if records[i].typ == ApplicationData then [records[i]] else []
  {
    assert records[..i + 1][..i] == records[..i];
  }

  /** If some prefix lacks a plaintext or a reference, the whole does. */
  lemma {:induction false} ApplicationPrefix(records: seq<Record>, i: nat)
    requires i <= |records|
    ensures ApplicationRecords(records[..i]) <= ApplicationRecords(records)
    decreases |records| - i
  {
    if i < |records| {
      ApplicationStep(records, i);
      ApplicationPrefix(records, i + 1);
    } else {
      assert records[..i] == records;
    }
  }

  lemma PlaintextsAppend(records: seq<Record>, r: Record)
    requires AllPlain(records) && r.plaintext.Some?
    ensures AllPlain(records + [r]) && Plaintexts(records + [r]) == Plaintexts(records) + r.plaintext.value
  {
    assert (records + [r])[..|records|] == records;
  }

  // ---- Where each record ends up ----

  /** Application records among the first `j`. */
  function Count(records: seq<Record>, j: nat): nat
    requires j <= |records|
  {
    if j == 0 then 0 else Count(records, j - 1) + if records[j - 1].typ == ApplicationData then 1 else 0
  }

  /** Bytes of application plaintext in the first `j` records. */
  function Offset(records: seq<Record>, j: nat): nat
    requires j <= |records|
  {
    if j == 0 then 0
    else Offset(records, j - 1) + if records[j - 1].typ == ApplicationData && records[j - 1].plaintext.Some? then |records[j - 1].plaintext.value| else 0
  }

  lemma {:induction false} PrefixCounts(records: seq<Record>, j: nat)
    requires j <= |records|
    ensures |ApplicationRecords(records[..j])| == Count(records, j)
    ensures AllPlain(ApplicationRecords(records[..j])) ==> |Plaintexts(ApplicationRecords(records[..j]))| == Offset(records, j)
    decreases j
  {
    hide Plaintexts, ApplicationRecords;
    if j == 0 {
      NoPlaintexts();
      assert records[..0] == [];
    } else {
      PrefixCounts(records, j - 1);
      ApplicationStep(records, j - 1);
      var app := ApplicationRecords(records[..j - 1]);
      if records[j - 1].typ == ApplicationData {
        var more := app + [records[j - 1]];
        if AllPlain(more) {
          assert more[|app|] == records[j - 1] && forall i :: 0 <= i < |app| ==> more[i] == app[i];
          PlaintextsAppend(app, records[j - 1]);
        }
      } else {
        assert app + [] == app;
      }
    }
  }

  lemma {:induction false} PlaintextsPrefix(app: seq<Record>, i: nat)
    requires AllPlain(app) && i <= |app|
    ensures AllPlain(app[..i]) && Plaintexts(app[..i]) <= Plaintexts(app)
    decreases |app| - i
  {
    hide Plaintexts;
    if i < |app| {
      assert app[..i + 1] == app[..i] + [app[i]];
      PlaintextsPrefix(app, i + 1);
      PlaintextsAppend(app[..i], app[i]);
    } else {
      assert app[..i] == app;
    }
  }

  /**
   * No application record is lost, added or moved: record `j` is the `Count(j)`-th, its plaintext
   * starts at `Offset(j)`, and nothing else is in the transcript.
   */
  lemma ApplicationAt(records: seq<Record>, j: nat)
    requires j < |records| && records[j].typ == ApplicationData
    ensures var app := ApplicationRecords(records);
      && |app| == Count(records, |records|) && Count(records, j) < |app| && app[Count(records, j)] == records[j]
      && (AllPlain(app) ==>
            && records[j].plaintext.Some? && |Plaintexts(app)| == Offset(records, |records|)
            && Offset(records, j) + |records[j].plaintext.value| <= |Plaintexts(app)|
            && Plaintexts(app)[Offset(records, j)..Offset(records, j) + |records[j].plaintext.value|] == records[j].plaintext.value)
  {
    hide Plaintexts, ApplicationRecords, Count, Offset;
    var app, n := ApplicationRecords(records), Count(records, j);
    assert records[..|records|] == records;
    PrefixCounts(records, |records|);
    PrefixCounts(records, j);
    ApplicationStep(records, j);
    ApplicationPrefix(records, j + 1);
    var before := ApplicationRecords(records[..j]);
    assert app[n] == (before + [records[j]])[n] == records[j];
    if AllPlain(app) {
      assert app[..n + 1] == before + [records[j]] && app[..n] == before;
      PlaintextsPrefix(app, n);
      PlaintextsPrefix(app, n + 1);
      PlaintextsAppend(before, records[j]);
    }
  }

  lemma {:induction false} ApplicationAreRecords(records: seq<Record>, i: nat)
    requires i < |ApplicationRecords(records)|
    ensures exists j :: 0 <= j < |records| && records[j] == ApplicationRecords(records)[i] && records[j].typ == ApplicationData
    decreases |records|
  {
    var m := |records| - 1;
    var front := ApplicationRecords(records[..m]);
    if i < |front| {
      ApplicationAreRecords(records[..m], i);
      var j :| 0 <= j < m && records[..m][j] == front[i] && records[..m][j].typ == ApplicationData;
      assert records[j] == front[i];
    } else {
      assert records[m] == ApplicationRecords(records)[i];
    }
  }

  /** Completeness is about application records alone. */
  lemma AllPresentWhen(records: seq<Record>)
    ensures AllPlain(ApplicationRecords(records)) <==> forall j :: 0 <= j < |records| && records[j].typ == ApplicationData ==> records[j].plaintext.Some?
    ensures AllReferenced(ApplicationRecords(records)) <==> forall j :: 0 <= j < |records| && records[j].typ == ApplicationData ==> records[j].plaintextRef.Some?
  {
    hide ApplicationRecords, Count, Offset;
    forall j | 0 <= j < |records| && records[j].typ == ApplicationData
      ensures exists i :: 0 <= i < |ApplicationRecords(records)| && ApplicationRecords(records)[i] == records[j]
    {
      ApplicationAt(records, j);
    }
    forall i | 0 <= i < |ApplicationRecords(records)|
      ensures exists j :: 0 <= j < |records| && records[j] == ApplicationRecords(records)[i] && records[j].typ == ApplicationData
    {
      ApplicationAreRecords(records, i);
    }
  }

  method CollectPlaintexts(records: seq<Record>) returns (r: Result<seq<byte>, TranscriptError>)
    ensures r.Ok? <==> AllPlain(ApplicationRecords(records))
    ensures r.Ok? ==> r.value == Plaintexts(ApplicationRecords(records))
  {
    hide Plaintexts, ApplicationRecords;
    var data: seq<byte> := [];
    NoPlaintexts();
    for i := 0 to |records|
      invariant AllPlain(ApplicationRecords(records[..i])) && data == Plaintexts(ApplicationRecords(records[..i]))
    {
      ApplicationStep(records, i);
      if records[i].typ == ApplicationData {
        if records[i].plaintext.None? {
          ApplicationPrefix(records, i + 1);
          var app := ApplicationRecords(records[..i]);
          assert ApplicationRecords(records)[|app|] == records[i];
          return Err(Incomplete);
        }
        PlaintextsAppend(ApplicationRecords(records[..i]), records[i]);
        data := data + records[i].plaintext.value;
      } else {
        assert ApplicationRecords(records[..i]) + [] == ApplicationRecords(records[..i]);
      }
    }
    assert records[..|records|] == records;
    return Ok(data);
  }

  lemma NoPlaintexts()
    ensures ApplicationRecords([]) == [] && Plaintexts([]) == []
  {
  }

  method CollectRefs(records: seq<Record>) returns (r: Result<seq<Slice>, TranscriptError>)
    ensures r.Ok? <==> AllReferenced(ApplicationRecords(records))
    ensures r.Ok? ==> r.value == RefsOf(ApplicationRecords(records))
  {
    hide ApplicationRecords;
    var refs: seq<Slice> := [];
    NoPlaintexts();
    for i := 0 to |records|
      invariant AllReferenced(ApplicationRecords(records[..i])) && refs == RefsOf(ApplicationRecords(records[..i]))
    {
      ApplicationStep(records, i);
      if records[i].typ == ApplicationData {
        if records[i].plaintextRef.None? {
          ApplicationPrefix(records, i + 1);
          var app := ApplicationRecords(records[..i]);
          assert ApplicationRecords(records)[|app|] == records[i];
          return Err(Incomplete);
        }
        refs := refs + [records[i].plaintextRef.value];
      } else {
        assert ApplicationRecords(records[..i]) + [] == ApplicationRecords(records[..i]);
      }
    }
    assert records[..|records|] == records;
    return Ok(refs);
  }

  method ToTranscript(t: TlsTranscript) returns (r: Result<Transcript, TranscriptError>)
    ensures r.Ok? <==> AllPlain(ApplicationRecords(t.sent)) && AllPlain(ApplicationRecords(t.recv))
    ensures r.Ok? ==> r.value == Transcript(Plaintexts(ApplicationRecords(t.sent)), Plaintexts(ApplicationRecords(t.recv)))
  {
    var sent := CollectPlaintexts(t.sent);
    if sent.Err? { return Err(sent.error); }
    var recv := CollectPlaintexts(t.recv);
    if recv.Err? { return Err(recv.error); }
    return Ok(Transcript(sent.value, recv.value));
  }

  method ToTranscriptRefs(t: TlsTranscript) returns (r: Result<TranscriptRefs, TranscriptError>)
    ensures r.Ok? <==> AllReferenced(ApplicationRecords(t.sent)) && AllReferenced(ApplicationRecords(t.recv))
    ensures r.Ok? ==> r.value == TranscriptRefs(RefsOf(ApplicationRecords(t.sent)), RefsOf(ApplicationRecords(t.recv)))
  {
    var sent := CollectRefs(t.sent);
    if sent.Err? { return Err(sent.error); }
    var recv := CollectRefs(t.recv);
    if recv.Err? { return Err(recv.error); }
    return Ok(TranscriptRefs(sent.value, recv.value));
  }

  /** The VM holds a record's plaintext at its reference. */
  predicate HeldAt(memory: nat -> byte, record: Record) {
    && record.plaintext.Some? && record.plaintextRef.Some?
    && record.plaintextRef.value.len == |record.plaintext.value|
    && forall i :: 0 <= i < |record.plaintext.value| ==> memory(record.plaintextRef.value.ptr + i) == record.plaintext.value[i]
  }

  /** Then position `x` of the transcript is the byte at the `x`-th address of its references. */
  lemma {:induction false} RefsHoldTranscript(memory: nat -> byte, records: seq<Record>)
    requires forall i :: 0 <= i < |records| ==> HeldAt(memory, records[i])
    ensures AllPlain(records) && AllReferenced(records)
    ensures |Addrs(RefsOf(records))| == |Plaintexts(records)|
    ensures forall x :: 0 <= x < |Plaintexts(records)| ==> memory(Addrs(RefsOf(records))[x]) == Plaintexts(records)[x]
    decreases |records|
  {
    if records != [] {
      var m := |records| - 1;
      RefsHoldTranscript(memory, records[..m]);
      assert RefsOf(records) == RefsOf(records[..m]) + [records[m].plaintextRef.value];
      AddrsAppend(RefsOf(records[..m]), records[m].plaintextRef.value);
      assert HeldAt(memory, records[m]);
    }
  }
}
