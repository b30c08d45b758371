/**
 * The text and keystream buffers of the joint AEAD, built on the cipher's blocks in a virtual
 * machine: what `MpcAesGcm` hands out is what these blocks evaluate to. The leader is the
 * prover's role here, the party that knows the text.
 */
module GcmText {
  import opened Bytes
  import opened RecordTypes
  import opened ZkVm
  import opened CtrKeystream
  import opened ZkAes
  import Gctr

  // ---- Keystream in the machine ----

  predicate StreamFrom(s: VmState, nc: nat, ks: nat, nonce: seq<byte>, len: nat) {
    forall j :: 0 <= j < len ==> StreamAt(s, nc, ks, nonce, j)
  }

  predicate StreamAt(s: VmState, nc: nat, ks: nat, nonce: seq<byte>, j: nat) {
    AesAt(s.gates, nc, ks, j) && AssignedAt(s, nc, j / 16, nonce, Gctr.START_CTR)
  }

  /** The `len` bytes at `ks` are the start of the keystream for the nonce. */
  ghost predicate Streams(s: VmState, ks: nat, nonce: seq<byte>, len: nat) {
    exists nc: nat :: StreamFrom(s, nc, ks, nonce, len)
  }

  lemma StreamByte(k: Gctr.Key, s: VmState, nc: nat, ks: nat, nonce: seq<byte>, j: nat)
    requires StreamAt(s, nc, ks, nonce, j)
    ensures ByteAt(k, s, ks + j) == Some(Gctr.KeystreamByte(k, nonce, j))
  {
    hide Be;
    assert k.iv + nonce + Be((Gctr.START_CTR + j / 16) % Gctr.CTR_MOD, 4)
        == k.iv + BytesAt(s, nc + 12 * (j / 16), 8) + BytesAt(s, nc + 12 * (j / 16) + 8, 4);
  }

  /** Decoding it gives the GCTR keystream of the record. */
  lemma StreamDecodes(k: Gctr.Key, s: VmState, ks: nat, nonce: seq<byte>, len: nat)
    requires Streams(s, ks, nonce, len)
    ensures Decoded(k, s, ks, len) == Some(Gctr.Keystream(k, nonce, len))
  {
    hide ByteAt, Decoded, Gctr.KeystreamByte, StreamAt;
    var nc: nat :| StreamFrom(s, nc, ks, nonce, len);
    var stream := Gctr.Keystream(k, nonce, len);
    forall j | 0 <= j < len
      ensures ByteAt(k, s, ks + j) == Some(stream[j])
    {
      StreamByte(k, s, nc, ks, nonce, j);
    }
    DecodedIs(k, s, ks, stream);
  }

  /** A text once committed is encrypted by XORing that keystream into it. */
  lemma TextEncrypts(k: Gctr.Key, s: VmState, text: Slice, out: Slice, nonce: seq<byte>)
    requires text.len == out.len && Wired(s, text.ptr, out.ptr, nonce, text.len) && Has(s, text.ptr, text.len)
    ensures Decoded(k, s, out.ptr, out.len) == Some(XorInto(BytesAt(s, text.ptr, text.len), Gctr.Keystream(k, nonce, text.len)))
  {
    hide Decoded, Gctr.KeystreamByte;
    WiredComputes(k, s, text.ptr, out.ptr, nonce, text.len);
  }

  lemma CountersStream(s: VmState, t: VmState, blocks: seq<CtrBlock>, nc: nat, ks: nat, p: nat, c: nat, nonce: seq<byte>, len: nat)
    requires LockStep(s, blocks, nc, ks, p, c, 16 * |blocks|) && len <= 16 * |blocks| && t.gates == s.gates
    requires forall i :: 0 <= i < |blocks| ==> AssignedAt(t, nc, i, nonce, Gctr.START_CTR)
    ensures Streams(t, ks, nonce, len)
  {
    hide AssignedAt, XorAt, AesAt;
    forall j | 0 <= j < len
      ensures StreamAt(t, nc, ks, nonce, j)
    {
      assert AesAt(s.gates, nc, ks, j);
      assert j / 16 < |blocks|;
    }
    assert StreamFrom(t, nc, ks, nonce, len);
  }

  // ---- The buffers ----

  class GcmText {
    const buffers: ZkAesCtr

    constructor (role: ZkRole)
      ensures fresh(buffers) && buffers.role == role && buffers.state.Init? && !buffers.keyed
    {
      buffers := new ZkAesCtr(role);
    }

    /** Input, keystream and output of whole blocks, in lock step. */
    method Alloc(vm: Vm, len: nat) returns (r: Result<(), ZkAesError>)
      requires buffers.Valid(vm)
      modifies buffers, vm
      ensures r.Ok? <==> old(buffers.state).Init? && buffers.keyed && len > 0
      ensures r.Ok? ==> buffers.Valid(vm) && buffers.state.Ready? && buffers.Left() == Padded(len) && fresh(buffers.state.keystream)
    {
      r := buffers.Alloc(vm, len);
    }

    /** Text of `len` bytes to be assigned, and the output it will be encrypted to. */
    method ApplyKeystream(vm: Vm, nonce: seq<byte>, len: nat) returns (r: Result<(Slice, Slice), ZkAesError>)
      requires buffers.Valid(vm)
      modifies buffers, vm, if buffers.state.Ready? then {buffers.state.keystream} else {}
      ensures r.Ok? <==> old(buffers.state).Ready? && |nonce| == 8 && Padded(len) <= old(buffers.Left())
      ensures r.Ok? ==>
        && buffers.Valid(vm) && buffers.state.Ready? && buffers.state.input.ptr == old(buffers.state).input.ptr
        && buffers.Left() == old(buffers.Left()) - Padded(len)
        && r.value.0 == Slice(buffers.state.input.ptr + buffers.Left(), len) && r.value.1.len == len
        && Wired(vm.S(), r.value.0.ptr, r.value.1.ptr, nonce, len) && Free(vm.S(), r.value.0.ptr, len)
        && Extends(old(vm.S()), vm.S())
    {
      r := buffers.Encrypt(vm, nonce, len);
    }

    /** Keystream alone. The text and output of its blocks are dropped and never assigned. */
    method TakeKeystream(vm: Vm, nonce: seq<byte>, len: nat) returns (r: Result<Slice, ZkAesError>)
      requires buffers.Valid(vm)
      modifies buffers, vm, if buffers.state.Ready? then {buffers.state.keystream} else {}
      ensures r.Ok? <==> old(buffers.state).Ready? && |nonce| == 8 && Padded(len) <= old(buffers.Left()) && len > 0
      ensures r.Ok? ==>
        && buffers.Valid(vm) && buffers.state.Ready? && buffers.state.input.ptr == old(buffers.state).input.ptr
        && buffers.Left() == old(buffers.Left()) - Padded(len)
        && r.value.len == len && Streams(vm.S(), r.value.ptr, nonce, len)
        && Extends(old(vm.S()), vm.S())
    {
      hide LockStep, Streams, Extends, Blocks, Has, Free, Laid, SameOutside;
      if !buffers.state.Ready? { return Err(WrongState); }
      if |nonce| != 8 { return Err(NonceLength); }
      var was := buffers.state;
      var paddedLen := 16 * Blocks(len);
      if paddedLen > was.input.len { return Err(ZkAesError.Insufficient); }

      var at := was.input.len - paddedLen;
      ghost var s, before, nc, ks := vm.S(), was.keystream.blocks, buffers.nc, buffers.ks;
      LockStepLen(s, before, nc, ks, was.input.ptr, was.output.ptr, was.input.len);
      BlocksOf(Blocks(len));
      buffers.state := Ready(Slice(was.input.ptr, at), was.keystream, Slice(was.output.ptr, at));
      var consumed := was.keystream.Consume(len);
      ghost var front, back := was.keystream.blocks, consumed.value.blocks;
      ghost var nc', ks' := nc + 12 * |front|, ks + 16 * |front|;
      LockStepSplit(s, before, nc, ks, was.input.ptr, was.output.ptr, was.input.len, front, back);
      LockStepLen(s, back, nc', ks', was.input.ptr + at, was.output.ptr + at, 16 * |back|);

      consumed.value.Assign(vm, nonce, Gctr.START_CTR, nc', ks');
      assert len <= Padded(len) == paddedLen;
      CountersStream(s, vm.S(), back, nc', ks', was.input.ptr + at, was.output.ptr + at, nonce, len);
      CountersKeep(s, vm.S(), front, nc, ks, was.input.ptr, was.output.ptr, |back|);
      LaidIsContiguous(back, nc', ks');
      var stream := consumed.value.ToVector(len);
      if stream.Err? { return Err(Cipher(stream.error)); }
      return Ok(stream.value);
    }
  }
}
