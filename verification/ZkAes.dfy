/**
 * Zero-knowledge AES-CTR: records are re-encrypted in the proof VM from buffers that were
 * allocated together and are consumed from the back in lock step.
 */
module ZkAes {
  import opened Bytes
  import opened RecordTypes
  import opened ZkVm
  import opened CtrKeystream
  import Gctr

  datatype ZkAesError = WrongState | NonceLength | Insufficient | Cipher(error: CipherError) | Failed(vm: VmError)

  datatype State = Init | Ready(input: Slice, keystream: Keystream, output: Slice) | Error

  // ---- What an encryption leaves in the VM ----

  /** Byte `j` of `c` is byte `j` of `p` XOR the record's keystream. */
  predicate WiredAt(s: VmState, p: nat, c: nat, nc: nat, ks: nat, nonce: seq<byte>, j: nat) {
    && XorAt(s.gates, ks, p, c, j) && AesAt(s.gates, nc, ks, j)
    && AssignedAt(s, nc, j / 16, nonce, Gctr.START_CTR)
    && p < c && ks < c && p + j !in s.gates
  }

  predicate WiredFrom(s: VmState, p: nat, c: nat, nc: nat, ks: nat, nonce: seq<byte>, len: nat) {
    forall j :: 0 <= j < len ==> WiredAt(s, p, c, nc, ks, nonce, j)
  }

  /** The `len` bytes at `c` encrypt the `len` bytes at `p` under the nonce. */
  ghost predicate Wired(s: VmState, p: nat, c: nat, nonce: seq<byte>, len: nat) {
    exists nc: nat, ks: nat :: WiredFrom(s, p, c, nc, ks, nonce, len)
  }

  /** Whatever bytes are committed as plaintext, the ciphertext decoded is their GCTR encryption. */
  lemma WiredComputes(k: Gctr.Key, s: VmState, p: nat, c: nat, nonce: seq<byte>, len: nat)
    requires Wired(s, p, c, nonce, len) && Has(s, p, len)
    ensures Decoded(k, s, c, len) == Some(Gctr.Apply(k, nonce, BytesAt(s, p, len)))
  {
    hide Gctr.Apply, ByteAt, Decoded;
    var nc: nat, ks: nat :| WiredFrom(s, p, c, nc, ks, nonce, len);
    var plaintext := BytesAt(s, p, len);
    var ciphertext := Gctr.Apply(k, nonce, plaintext);
    forall j | 0 <= j < len
      ensures ByteAt(k, s, c + j) == Some(ciphertext[j])
    {
      WiredByte(k, s, p, c, nc, ks, nonce, j);
      ApplyAt(k, nonce, plaintext, j);
    }
    DecodedIs(k, s, c, ciphertext);
  }

  lemma WiredByte(k: Gctr.Key, s: VmState, p: nat, c: nat, nc: nat, ks: nat, nonce: seq<byte>, j: nat)
    requires WiredAt(s, p, c, nc, ks, nonce, j) && p + j in s.mem && p + j in s.committed
    ensures ByteAt(k, s, c + j) == Some(s.mem[p + j] ^ Gctr.KeystreamByte(k, nonce, j))
  {
    hide Be;
    assert ByteAt(k, s, ks + j) == Some(Gctr.KeystreamByte(k, nonce, j)) by {
      assert k.iv + nonce + Be((Gctr.START_CTR + j / 16) % Gctr.CTR_MOD, 4)
          == k.iv + BytesAt(s, nc + 12 * (j / 16), 8) + BytesAt(s, nc + 12 * (j / 16) + 8, 4);
    }
    assert ByteAt(k, s, p + j) == Some(s.mem[p + j]);
  }

  lemma ApplyAt(k: Gctr.Key, nonce: seq<byte>, data: seq<byte>, j: nat)
    requires j < |data|
    ensures Gctr.Apply(k, nonce, data)[j] == data[j] ^ Gctr.KeystreamByte(k, nonce, j)
  {
  }

  lemma WiredKept(s: VmState, t: VmState, p: nat, c: nat, nonce: seq<byte>, len: nat)
    requires Wired(s, p, c, nonce, len) && Extends(s, t) && t.gates == s.gates
    ensures Wired(t, p, c, nonce, len)
  {
    hide AssignedAt, XorAt, AesAt, Extends;
    var nc: nat, ks: nat :| WiredFrom(s, p, c, nc, ks, nonce, len);
    forall j | 0 <= j < len
      ensures WiredAt(t, p, c, nc, ks, nonce, j)
    {
      assert WiredAt(s, p, c, nc, ks, nonce, j);
      AssignedKept(s, t, nc, j / 16, nonce, Gctr.START_CTR);
    }
    assert WiredFrom(t, p, c, nc, ks, nonce, len);
  }

  // ---- The buffers ----

  /** `n` bytes of input, keystream and output, aligned position by position and none of it used. */
  ghost predicate LockStep(s: VmState, blocks: seq<CtrBlock>, nc: nat, ks: nat, input: nat, output: nat, n: nat) {
    && n == 16 * |blocks| && Laid(blocks, nc, ks)
    && input + n <= nc && nc + 12 * |blocks| <= ks && ks + n <= output && output + n <= s.next
    && (forall j :: 0 <= j < n ==> AesAt(s.gates, nc, ks, j))
    && (forall j :: 0 <= j < n ==> XorAt(s.gates, ks, input, output, j))
    && Free(s, input, n) && Free(s, nc, 12 * |blocks|)
    && (forall a: nat :: input <= a < input + n ==> a !in s.gates)
  }

  /** Taking blocks off the back leaves both parts in lock step. */
  lemma LockStepSplit(s: VmState, blocks: seq<CtrBlock>, nc: nat, ks: nat, input: nat, output: nat, n: nat, front: seq<CtrBlock>, back: seq<CtrBlock>)
    requires LockStep(s, blocks, nc, ks, input, output, n) && blocks == front + back
    ensures LockStep(s, front, nc, ks, input, output, 16 * |front|)
    ensures LockStep(s, back, nc + 12 * |front|, ks + 16 * |front|, input + 16 * |front|, output + 16 * |front|, 16 * |back|)
  {
    hide Laid, AesAt, XorAt;
    var m := |front|;
    LaidSplit(front, back, nc, ks);
    var nc', ks', input', output' := nc + 12 * m, ks + 16 * m, input + 16 * m, output + 16 * m;
    forall j | 0 <= j < 16 * |back|
      ensures AesAt(s.gates, nc', ks', j)
    {
      BlockShift(s, nc, ks, input, output, m, j);
    }
    forall j | 0 <= j < 16 * |back|
      ensures XorAt(s.gates, ks', input', output', j)
    {
      BlockShift(s, nc, ks, input, output, m, j);
    }
  }

  lemma LaidSplit(front: seq<CtrBlock>, back: seq<CtrBlock>, nc: nat, ks: nat)
    requires Laid(front + back, nc, ks)
    ensures Laid(front, nc, ks) && Laid(back, nc + 12 * |front|, ks + 16 * |front|)
  {
    var blocks, m := front + back, |front|;
    forall i | 0 <= i < |front| ensures front[i] == CtrBlock(nc + 12 * i, nc + 12 * i + 8, ks + 16 * i) {
      assert front[i] == blocks[i];
    }
    forall i | 0 <= i < |back|
      ensures back[i] == CtrBlock(nc + 12 * m + 12 * i, nc + 12 * m + 12 * i + 8, ks + 16 * m + 16 * i)
    {
      assert back[i] == blocks[m + i];
    }
  }

  lemma BlockShift(s: VmState, nc: nat, ks: nat, input: nat, output: nat, m: nat, j: nat)
    ensures AesAt(s.gates, nc, ks, 16 * m + j) ==> AesAt(s.gates, nc + 12 * m, ks + 16 * m, j)
    ensures XorAt(s.gates, ks, input, output, 16 * m + j) ==> XorAt(s.gates, ks + 16 * m, input + 16 * m, output + 16 * m, j)
  {
    assert (16 * m + j) / 16 == m + j / 16 && (16 * m + j) % 16 == j % 16;
  }

  /** Lock step survives changes outside the unused input and counters. */
  lemma LockStepKept(s: VmState, t: VmState, blocks: seq<CtrBlock>, nc: nat, ks: nat, input: nat, output: nat, n: nat)
    requires LockStep(s, blocks, nc, ks, input, output, n) && t.gates == s.gates && t.next >= s.next
    requires Free(t, input, n) && Free(t, nc, 12 * |blocks|)
    ensures LockStep(t, blocks, nc, ks, input, output, n)
  {
  }

  lemma LockStepLen(s: VmState, blocks: seq<CtrBlock>, nc: nat, ks: nat, input: nat, output: nat, n: nat)
    requires LockStep(s, blocks, nc, ks, input, output, n)
    ensures n == 16 * |blocks| && input + n <= nc && output + n <= s.next && ks + n <= output && nc + 12 * |blocks| <= ks
    ensures Laid(blocks, nc, ks) && Free(s, input, n) && Free(s, nc, 12 * |blocks|)
  {
  }

  lemma BlocksOf(count: nat)
    ensures Blocks(16 * count) == count
  {
  }

  /** The counters just assigned complete the wiring of the blocks taken. */
  lemma CountersWire(s: VmState, t: VmState, blocks: seq<CtrBlock>, nc: nat, ks: nat, p: nat, c: nat, nonce: seq<byte>, len: nat)
    requires LockStep(s, blocks, nc, ks, p, c, 16 * |blocks|) && len <= 16 * |blocks| && t.gates == s.gates
    requires forall i :: 0 <= i < |blocks| ==> AssignedAt(t, nc, i, nonce, Gctr.START_CTR)
    ensures Wired(t, p, c, nonce, len)
  {
    hide AssignedAt, XorAt, AesAt;
    forall j | 0 <= j < len
      ensures WiredAt(t, p, c, nc, ks, nonce, j)
    {
      assert AesAt(s.gates, nc, ks, j) && XorAt(s.gates, ks, p, c, j);
      assert j / 16 < |blocks|;
    }
    assert WiredFrom(t, p, c, nc, ks, nonce, len);
  }

  lemma CountersKeep(s: VmState, t: VmState, front: seq<CtrBlock>, nc: nat, ks: nat, input: nat, output: nat, taken: nat)
    requires LockStep(s, front, nc, ks, input, output, 16 * |front|) && Free(s, input + 16 * |front|, 16 * taken)
    requires input + 16 * |front| + 16 * taken <= nc
    requires t.gates == s.gates && t.next == s.next && SameOutside(s, t, nc + 12 * |front|, 12 * taken)
    ensures LockStep(t, front, nc, ks, input, output, 16 * |front|) && Free(t, input + 16 * |front|, 16 * taken)
  {
    LockStepKept(s, t, front, nc, ks, input, output, 16 * |front|);
  }

  lemma PaddingKeeps(s: VmState, t: VmState, front: seq<CtrBlock>, nc: nat, ks: nat, input: nat, output: nat, len: nat, padding: nat)
    requires LockStep(s, front, nc, ks, input, output, 16 * |front|) && Free(s, input + 16 * |front|, len + padding)
    requires input + 16 * |front| + len + padding <= nc
    requires t.gates == s.gates && t.next == s.next && SameOutside(s, t, input + 16 * |front| + len, padding)
    ensures LockStep(t, front, nc, ks, input, output, 16 * |front|) && Free(t, input + 16 * |front|, len)
  {
    LockStepKept(s, t, front, nc, ks, input, output, 16 * |front|);
  }

  /** Padding is not public: only the prover assigns it. */
  method ZeroPadding(vm: Vm, role: ZkRole, ref: Slice) returns (r: Result<(), VmError>)
    requires vm.Valid() && vm.role == role && ref.ptr + ref.len <= vm.next && Free(vm.S(), ref.ptr, ref.len)
    modifies vm
    ensures vm.Valid() && r.Ok? && vm.gates == old(vm.gates) && vm.next == old(vm.next)
    ensures Extends(old(vm.S()), vm.S()) && SameOutside(old(vm.S()), vm.S(), ref.ptr, ref.len)
  {
    if role.Prover? {
      r := vm.Assign(ref, seq(ref.len, _ => 0));
      if r.Err? { return; }
    }
    r := vm.Commit(ref);
  }

  lemma AesKept(s: VmState, t: VmState, nc: nat, ks: nat, j: nat)
    requires AesAt(s.gates, nc, ks, j) && Extends(s, t)
    ensures AesAt(t.gates, nc, ks, j)
  {
  }

  /** Input, then nonces and counters, then keystream, then output: allocated one after the other. */
  lemma AllocatesLockStep(s: VmState, t: VmState, u: VmState, blocks: seq<CtrBlock>, input: nat, nc: nat, ks: nat, output: nat, n: nat)
    requires forall a: nat :: a >= input ==> a !in s.mem && a !in s.committed && a !in s.gates
    requires n == 16 * |blocks| && nc == input + n && ks == nc + 12 * |blocks| && output == ks + n && u.next == output + n
    requires Laid(blocks, nc, ks) && u.mem == s.mem && u.committed == s.committed && Extends(t, u)
    requires NewGates(s.gates, t.gates, ks) && NewGates(t.gates, u.gates, output)
    requires forall j :: 0 <= j < n ==> AesAt(t.gates, nc, ks, j)
    requires forall j :: 0 <= j < n ==> XorAt(u.gates, ks, input, output, j)
    ensures LockStep(u, blocks, nc, ks, input, output, n)
  {
    hide XorAt;
    forall j | 0 <= j < n
      ensures AesAt(u.gates, nc, ks, j)
    {
      AesKept(t, u, nc, ks, j);
    }
  }

  class ZkAesCtr {
    const role: ZkRole
    var keyed: bool
    var state: State
    ghost var nc: nat
    ghost var ks: nat

    constructor (role: ZkRole)
      ensures this.role == role && !keyed && state.Init?
    {
      this.role := role;
      keyed := false;
      state := Init;
    }

    method SetKey()
      modifies this`keyed
      ensures keyed
    {
      keyed := true;
    }

    function Left(): nat
      reads this
    {
      if state.Ready? then state.input.len else 0
    }

    ghost predicate Valid(vm: Vm)
      reads this, vm, if state.Ready? then {state.keystream} else {}
    {
      && vm.Valid() && vm.role == role
      && (state.Ready? ==> state.output.len == state.input.len
                           && LockStep(vm.S(), state.keystream.blocks, nc, ks, state.input.ptr, state.output.ptr, state.input.len))
    }

    method Alloc(vm: Vm, len: nat) returns (r: Result<(), ZkAesError>)
      requires Valid(vm)
      modifies this, vm
      ensures r.Ok? <==> old(state).Init? && keyed && len > 0
      ensures r.Ok? ==> Valid(vm) && state.Ready? && Left() == Padded(len) && fresh(state.keystream)
                        && state.input.ptr == old(vm.next) && Extends(old(vm.S()), vm.S())
      ensures keyed == old(keyed)
    {
      hide AesAt, XorAt, LockStep, Laid, Extends, NewGates, Free;
      var was := state;
      state := Error;
      if !was.Init? { return Err(WrongState); }
      var n := Padded(len);
      ghost var s := vm.S();
      var input := vm.Alloc(n);
      BlocksOf(Blocks(len));
      ghost var s1 := vm.S();
      var keystream := AllocKeystream(vm, keyed, n);
      if keystream.Err? { return Err(Cipher(keystream.error)); }
      ghost var s2 := vm.S();
      LaidIsContiguous(keystream.value.blocks, input.ptr + n, input.ptr + n + 12 * Blocks(len));
      var output := keystream.value.Apply(vm, input);
      if output.Err? { return Err(Cipher(output.error)); }
      state := Ready(input, keystream.value, output.value);
      nc, ks := input.ptr + n, input.ptr + n + 12 * Blocks(len);
      AllocatesLockStep(s1, s2, vm.S(), keystream.value.blocks, input.ptr, nc, ks, output.value.ptr, n);
      AllocExtends(s, s1);
      ExtendsTwice(s, s1, s2);
      ExtendsTwice(s, s2, vm.S());
      return Ok(());
    }

    /**
     * Takes whole blocks off the back of all three buffers, gives them their counters and
     * zeroes the padding. The plaintext itself is left for the caller to assign.
     */
    method Encrypt(vm: Vm, explicitNonce: seq<byte>, len: nat) returns (r: Result<(Slice, Slice), ZkAesError>)
      requires Valid(vm)
      modifies this, vm, if state.Ready? then {state.keystream} else {}
      ensures r.Ok? <==> old(state).Ready? && |explicitNonce| == 8 && Padded(len) <= old(Left())
      ensures keyed == old(keyed) && (r.Ok? ==> state.Ready? && state.keystream == old(state.keystream))
      ensures r.Ok? ==>
        var at := old(Left()) - Padded(len);
        && Valid(vm) && Left() == at && state.input.ptr == old(state.input.ptr) && state.output.ptr == old(state.output.ptr)
        && r.value == (Slice(state.input.ptr + at, len), Slice(state.output.ptr + at, len))
        && Wired(vm.S(), r.value.0.ptr, r.value.1.ptr, explicitNonce, len)
        && Free(vm.S(), r.value.0.ptr, len) && r.value.0.ptr + len <= nc <= vm.next
        && Extends(old(vm.S()), vm.S()) && vm.gates == old(vm.gates) && vm.next == old(vm.next)
    {
      hide LockStep, Wired, Extends, Blocks, Has, Free, Laid, SameOutside;
      if !state.Ready? { return Err(WrongState); }
      if |explicitNonce| != 8 { return Err(NonceLength); }
      var blockCount := Blocks(len);
      var paddedLen := 16 * blockCount;
      var paddingLen := paddedLen - len;
      if paddedLen > state.input.len { return Err(ZkAesError.Insufficient); }

      var at := state.input.len - paddedLen;
      ghost var s, before := vm.S(), state.keystream.blocks;
      LockStepLen(s, before, nc, ks, state.input.ptr, state.output.ptr, state.input.len);
      BlocksOf(blockCount);
      var consumed := state.keystream.Consume(paddedLen);
      // The keystream is as long as the input, so it cannot run out first.
      ghost var front, back := state.keystream.blocks, consumed.value.blocks;
      LockStepSplit(s, before, nc, ks, state.input.ptr, state.output.ptr, state.input.len, front, back);
      state := Ready(Slice(state.input.ptr, at), state.keystream, Slice(state.output.ptr, at));
      var input, output := Slice(state.input.ptr + at, len), Slice(state.output.ptr + at, len);
      assert len <= Padded(len) == paddedLen;
      AssignInputs(vm, role, consumed.value, front, nc, ks, state.input, state.output, explicitNonce, input, output, paddingLen);
      return Ok((input, output));
    }
  }

  /** The counters of the blocks taken, then zeroes for the padding behind the plaintext. */
  method AssignInputs(vm: Vm, role: ZkRole, consumed: Keystream, ghost front: seq<CtrBlock>, ghost nc: nat, ghost ks: nat,
                      ghost rest: Slice, ghost restOut: Slice, nonce: seq<byte>, input: Slice, output: Slice, padding: nat)
    requires vm.Valid() && vm.role == role && |nonce| == 8
    requires rest.len == 16 * |front| && input.ptr == rest.ptr + rest.len && output.ptr == restOut.ptr + rest.len
    requires input.len == output.len && input.len + padding == 16 * |consumed.blocks| && input.ptr + input.len + padding <= nc
    requires LockStep(vm.S(), front, nc, ks, rest.ptr, restOut.ptr, rest.len)
    requires LockStep(vm.S(), consumed.blocks, nc + 12 * |front|, ks + rest.len, input.ptr, output.ptr, 16 * |consumed.blocks|)
    modifies vm
    ensures vm.Valid() && vm.gates == old(vm.gates) && vm.next == old(vm.next) && Extends(old(vm.S()), vm.S())
    ensures LockStep(vm.S(), front, nc, ks, rest.ptr, restOut.ptr, rest.len)
    ensures Wired(vm.S(), input.ptr, output.ptr, nonce, input.len) && Free(vm.S(), input.ptr, input.len)
  {
    hide LockStep, Wired, Extends, Has;
    ghost var s, back := vm.S(), consumed.blocks;
    ghost var nc', ks' := nc + 12 * |front|, ks + rest.len;
    LockStepLen(s, front, nc, ks, rest.ptr, restOut.ptr, rest.len);
    LockStepLen(s, back, nc', ks', input.ptr, output.ptr, 16 * |back|);
    consumed.Assign(vm, nonce, Gctr.START_CTR, nc', ks');
    ghost var t := vm.S();
    CountersWire(s, t, back, nc', ks', input.ptr, output.ptr, nonce, input.len);
    CountersKeep(s, t, front, nc, ks, rest.ptr, restOut.ptr, |back|);
    ExtendsSelf(t);
    if padding > 0 {
      var padded := ZeroPadding(vm, role, Slice(input.ptr + input.len, padding));
    }
    PaddingKeeps(t, vm.S(), front, nc, ks, rest.ptr, restOut.ptr, input.len, padding);
    ExtendsTwice(s, t, vm.S());
    WiredKept(t, vm.S(), input.ptr, output.ptr, nonce, input.len);
  }
}
