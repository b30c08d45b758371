/**
 * The joint AEAD the record layer drives. Its text and keystream are handed out from the
 * back in whole blocks, and the keystream it hands out is the GCTR stream of the record's
 * nonce: `GcmText` builds both from the cipher's blocks in a machine and shows they evaluate to
 * these values. GHASH is kept abstract.
 */
module MpcAesGcm {
  import opened Bytes
  import opened Parties
  import opened RecordTypes
  import opened RecordLayerSpec
  import Gctr

  datatype AeadError = State | NonceLength | Insufficient | EmptyKeystream | Mismatch | InputLength | BadTag

  datatype TagData = TagData(nonce: seq<byte>, aad: seq<byte>)

  /** Tags to be computed once the ciphertexts are decoded. */
  datatype ComputeTags = ComputeTags(role: Role, k: Gctr.Key, data: seq<TagData>, ciphertexts: seq<seq<byte>>) {
    predicate Fits() {
      |data| == |ciphertexts| && forall i :: 0 <= i < |data| ==> GhashFits(|data[i].aad|, |ciphertexts[i]|)
    }

    /** The leader learns the tags, the follower only contributes its shares. */
    method Run() returns (r: Result<Option<seq<seq<byte>>>, AeadError>)
      requires |data| == |ciphertexts|
      ensures r.Ok? <==> Fits()
      ensures r.Ok? ==> (r.value.Some? <==> data != [] && role.Leader?)
      ensures r.Ok? && r.value.Some? ==>
        && |r.value.value| == |data|
        && forall i :: 0 <= i < |data| ==>
             r.value.value[i] == Gctr.Tag(k, data[i].nonce, data[i].aad, ciphertexts[i])
    {
      if data == [] { return Ok(None); }
      var tags: seq<seq<byte>> := [];
      for i := 0 to |data|
        invariant |tags| == i
        invariant forall j :: 0 <= j < i ==> GhashFits(|data[j].aad|, |ciphertexts[j]|)
        invariant forall j :: 0 <= j < i ==>
          tags[j] == Gctr.Tag(k, data[j].nonce, data[j].aad, ciphertexts[j])
      {
        if !GhashFits(|data[i].aad|, |ciphertexts[i]|) { return Err(InputLength); }
        tags := tags + [Gctr.Tag(k, data[i].nonce, data[i].aad, ciphertexts[i])];
      }
      return Ok(if role.Leader? then Some(tags) else None);
    }
  }

  /** Tags to be compared with the ones received. */
  datatype VerifyTags = VerifyTags(k: Gctr.Key, data: seq<TagData>, ciphertexts: seq<seq<byte>>, tags: seq<seq<byte>>) {
    predicate Aligned() {
      |data| == |ciphertexts| == |tags|
    }

    method Run() returns (r: Result<(), AeadError>)
      requires Aligned()
      ensures r.Ok? <==> forall i :: 0 <= i < |data| ==>
        && GhashFits(|data[i].aad|, |ciphertexts[i]|)
        && tags[i] == Gctr.Tag(k, data[i].nonce, data[i].aad, ciphertexts[i])
    {
      var expected: seq<seq<byte>> := [];
      for i := 0 to |data|
        invariant |expected| == i
        invariant forall j :: 0 <= j < i ==> GhashFits(|data[j].aad|, |ciphertexts[j]|)
        invariant forall j :: 0 <= j < i ==>
          expected[j] == Gctr.Tag(k, data[j].nonce, data[j].aad, ciphertexts[j])
      {
        if !GhashFits(|data[i].aad|, |ciphertexts[i]|) { return Err(InputLength); }
        expected := expected + [Gctr.Tag(k, data[i].nonce, data[i].aad, ciphertexts[i])];
      }
      if tags != expected { return Err(BadTag); }
      return Ok(());
    }
  }

  class MpcAesGcm {
    const role: Role
    const k: Gctr.Key
    var keyed: bool
    var phase: AeadPhase
    var base: nat
    var left: nat
    var j0s: nat

    constructor (role: Role, k: Gctr.Key)
      ensures this.role == role && this.k == k && !keyed && A() == Aead(Unallocated, 0, 0, 0)
    {
      this.role := role;
      this.k := k;
      keyed := false;
      phase := Unallocated;
      base, left, j0s := 0, 0, 0;
    }

    function A(): Aead
      reads this
    {
      Aead(phase, base, left, j0s)
    }

    method SetKey()
      modifies this
      ensures keyed && A() == old(A())
    {
      keyed := true;
    }

    /** `base` is where the VM puts the text. Nothing can be applied to an empty keystream. */
    method Alloc(base: nat, records: nat, len: nat) returns (r: Result<(), AeadError>)
      modifies this
      ensures keyed == old(keyed)
      ensures r.Ok? <==> old(phase).Unallocated? && keyed && len > 0
      ensures r.Ok? ==> A() == Aead(Awaiting, base, Padded(len), records)
      ensures r.Err? ==> phase == Failed
    {
      var was := phase;
      phase := Failed;
      if !was.Unallocated? || !keyed { return Err(State); }
      if Blocks(len) == 0 { return Err(EmptyKeystream); }
      phase, this.base, left, j0s := Awaiting, base, Padded(len), records;
      return Ok(());
    }

    method Setup() returns (r: Result<(), AeadError>)
      modifies this
      ensures keyed == old(keyed)
      ensures r.Ok? <==> old(phase).Awaiting?
      ensures A() == old(A()).(phase := if r.Ok? then Ready else Failed)
    {
      var was := phase;
      phase := if was.Awaiting? then Ready else Failed;
      return if was.Awaiting? then Ok(()) else Err(State);
    }

    /** Text reference of `len` bytes and the keystream that will be XORed into it. */
    method ApplyKeystream(nonce: seq<byte>, len: nat) returns (r: Result<(Slice, seq<byte>), AeadError>)
      modifies this
      ensures keyed == old(keyed)
      ensures r.Ok? <==> old(phase).Ready? && |nonce| == 8 && Padded(len) <= old(left)
      ensures r.Ok? ==>
        && A() == old(A()).(left := old(left) - Padded(len))
        && r.value == (Slice(base + left, len), Gctr.Keystream(k, nonce, len))
    {
      if !phase.Ready? { return Err(State); }
      if |nonce| != 8 { return Err(NonceLength); }
      if Padded(len) > left { return Err(Insufficient); }
      left := left - Padded(len);
      return Ok((Slice(base + left, len), Gctr.Keystream(k, nonce, len)));
    }

    /** Keystream alone; the text of its blocks stays unassigned. An empty keystream is refused. */
    method TakeKeystream(nonce: seq<byte>, len: nat) returns (r: Result<seq<byte>, AeadError>)
      modifies this
      ensures keyed == old(keyed)
      ensures r.Ok? <==> old(phase).Ready? && |nonce| == 8 && Padded(len) <= old(left) && len > 0
      ensures r.Ok? ==>
        && A() == old(A()).(left := old(left) - Padded(len))
        && r.value == Gctr.Keystream(k, nonce, len)
    {
      if !phase.Ready? { return Err(State); }
      if |nonce| != 8 { return Err(NonceLength); }
      if Padded(len) > left { return Err(Insufficient); }
      left := left - Padded(len);
      if len == 0 { return Err(EmptyKeystream); }
      return Ok(Gctr.Keystream(k, nonce, len));
    }

    method TakeMasks(data: seq<TagData>) returns (r: Result<(), AeadError>)
      modifies this
      ensures keyed == old(keyed)
      ensures r.Ok? <==> old(phase).Ready? && |data| <= old(j0s) && forall i :: 0 <= i < |data| ==> |data[i].nonce| == 8
      ensures r.Ok? ==> A() == old(A()).(j0s := old(j0s) - |data|)
    {
      if !phase.Ready? { return Err(State); }
      if |data| > j0s { return Err(Insufficient); }
      for i := 0 to |data|
        invariant A() == old(A()).(j0s := old(j0s) - i) && keyed == old(keyed)
        invariant forall j :: 0 <= j < i ==> |data[j].nonce| == 8
      {
        if |data[i].nonce| != 8 { return Err(NonceLength); }
        j0s := j0s - 1;
      }
      return Ok(());
    }
  }
}
