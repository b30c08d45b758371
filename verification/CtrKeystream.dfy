/** Keystream blocks in a virtual machine, taken from the back as records are processed. */
module CtrKeystream {
  import opened Bytes
  import opened RecordTypes
  import opened ZkVm
  import Gctr

  /** Where a block's nonce, counter and output live. */
  datatype CtrBlock = CtrBlock(nonce: nat, ctr: nat, out: nat)

  datatype CipherError = KeyNotSet | NotContiguous | Insufficient | InputLength | EmptyKeystream

  predicate Contiguous(blocks: seq<CtrBlock>) {
    forall i :: 0 <= i < |blocks| ==> blocks[i].out == blocks[0].out + 16 * i
  }

  // ---- The layout an allocation produces ----

  /** Nonces and counters from address `nc`, outputs from `ks`. */
  predicate Laid(blocks: seq<CtrBlock>, nc: nat, ks: nat) {
    forall i :: 0 <= i < |blocks| ==> blocks[i] == CtrBlock(nc + 12 * i, nc + 12 * i + 8, ks + 16 * i)
  }

  /** Keystream byte `j` is byte `j % 16` of block `j / 16`. */
  predicate AesAt(gates: map<nat, Gate>, nc: nat, ks: nat, j: nat) {
    ks + j in gates && gates[ks + j] == AesByte(nc + 12 * (j / 16), nc + 12 * (j / 16) + 8, j % 16)
  }

  /** Output byte `j` is keystream byte `j` XOR input byte `j`. */
  predicate XorAt(gates: map<nat, Gate>, ks: nat, input: nat, out: nat, j: nat) {
    out + j in gates && gates[out + j] == XorByte(ks + j, input + j)
  }

  /** Block `i` was given this nonce and the `i`-th 32-bit counter from `start`. */
  predicate AssignedAt(s: VmState, nc: nat, i: nat, nonce: seq<byte>, start: nat) {
    && Has(s, nc + 12 * i, 8) && BytesAt(s, nc + 12 * i, 8) == nonce
    && Has(s, nc + 12 * i + 8, 4) && BytesAt(s, nc + 12 * i + 8, 4) == Be((start + i) % Gctr.CTR_MOD, 4)
  }

  /** Nothing outside a range was touched. */
  ghost predicate SameOutside(s: VmState, t: VmState, ptr: nat, len: nat) {
    forall a: nat :: !(ptr <= a < ptr + len) ==> (a in t.mem <==> a in s.mem) && (a in t.committed <==> a in s.committed)
  }

  predicate NewGates(before: map<nat, Gate>, after: map<nat, Gate>, ptr: nat) {
    forall a: nat :: a in after ==> a in before || a >= ptr
  }

  // ---- Assigning ----

  lemma BoundIs(s: VmState, t: VmState, ptr: nat, bytes: seq<byte>)
    requires Free(s, ptr, |bytes|)
    requires t == s.(mem := s.mem + Bound(ptr, bytes), committed := s.committed + Range(ptr, |bytes|))
    ensures Has(t, ptr, |bytes|) && BytesAt(t, ptr, |bytes|) == bytes
    ensures Extends(s, t) && SameOutside(s, t, ptr, |bytes|)
  {
  }

  /** Assigns and commits bytes both parties know. */
  method AssignPublic(vm: Vm, ref: Slice, bytes: seq<byte>)
    requires vm.Valid() && ref.ptr + ref.len <= vm.next && |bytes| == ref.len && Free(vm.S(), ref.ptr, ref.len)
    modifies vm
    ensures vm.Valid() && vm.next == old(vm.next) && vm.gates == old(vm.gates)
    ensures Has(vm.S(), ref.ptr, ref.len) && BytesAt(vm.S(), ref.ptr, ref.len) == bytes
    ensures Extends(old(vm.S()), vm.S()) && SameOutside(old(vm.S()), vm.S(), ref.ptr, ref.len)
  {
    ghost var s := vm.S();
    // Neither call can fail on memory nobody has used.
    var assign := vm.Assign(ref, bytes);
    ghost var m := vm.mem;
    var commit := vm.Commit(ref);
    assert vm.mem == m;
    BoundIs(s, vm.S(), ref.ptr, bytes);
  }

  lemma AssignedKept(s: VmState, t: VmState, nc: nat, i: nat, nonce: seq<byte>, start: nat)
    requires AssignedAt(s, nc, i, nonce, start) && Extends(s, t)
    ensures AssignedAt(t, nc, i, nonce, start)
  {
    ExtendsKeeps(s, t, nc + 12 * i, 8);
    ExtendsKeeps(s, t, nc + 12 * i + 8, 4);
  }

  lemma OutsideTwice(s: VmState, t: VmState, u: VmState, ptr: nat, m: nat, n: nat)
    requires SameOutside(s, t, ptr, m) && SameOutside(t, u, ptr + m, n)
    ensures SameOutside(s, u, ptr, m + n)
  {
  }

  lemma StillFree(s: VmState, t: VmState, ptr: nat, m: nat, n: nat)
    requires SameOutside(s, t, ptr, m) && Free(s, ptr, m + n)
    ensures Free(t, ptr + m, n)
  {
  }

  class Keystream {
    var blocks: seq<CtrBlock>

    constructor (blocks: seq<CtrBlock>)
      ensures this.blocks == blocks
    {
      this.blocks := blocks;
    }

    /** Refuses (the source panics) blocks whose outputs are not contiguous. */
    static method New(blocks: seq<CtrBlock>) returns (r: Result<Keystream, CipherError>)
      ensures r.Ok? <==> Contiguous(blocks)
      ensures r.Ok? ==> fresh(r.value) && r.value.blocks == blocks
    {
      var pos := if blocks == [] then 0 else blocks[0].out;
      for i := 0 to |blocks|
        invariant blocks != [] ==> pos == blocks[0].out + 16 * i
        invariant forall j :: 0 <= j < i ==> blocks[j].out == blocks[0].out + 16 * j
      {
        if blocks[i].out != pos { return Err(NotContiguous); }
        pos := pos + 16;
      }
      var keystream := new Keystream(blocks);
      return Ok(keystream);
    }

    method Consume(len: nat) returns (r: Result<Keystream, CipherError>)
      modifies this
      ensures r.Ok? <==> Blocks(len) <= |old(blocks)|
      ensures r.Ok? ==> fresh(r.value) && |r.value.blocks| == Blocks(len) && old(blocks) == blocks + r.value.blocks
      ensures r.Err? ==> blocks == old(blocks)
    {
      var count := Blocks(len);
      if count > |blocks| { return Err(Insufficient); }
      var at := |blocks| - count;
      var consumed := new Keystream(blocks[at..]);
      blocks := blocks[..at];
      return Ok(consumed);
    }

    /** XORs the keystream into the input, block by block; the outputs come out contiguous. */
    method Apply(vm: Vm, input: Slice) returns (r: Result<Slice, CipherError>)
      requires vm.Valid() && Contiguous(blocks)
      modifies vm
      ensures vm.Valid()
      ensures r.Ok? <==> input.len == 16 * |blocks| && blocks != []
      ensures r.Ok? ==>
        && r.value == Slice(old(vm.next), input.len) && vm.next == old(vm.next) + input.len
        && vm.mem == old(vm.mem) && vm.committed == old(vm.committed)
        && Extends(old(vm.S()), vm.S())
        && NewGates(old(vm.gates), vm.gates, old(vm.next))
        && forall j :: 0 <= j < input.len ==> XorAt(vm.gates, blocks[0].out, input.ptr, r.value.ptr, j)
    {
      if input.len != 16 * |blocks| { return Err(InputLength); }
      if blocks == [] { return Err(EmptyKeystream); }
      ghost var ks, out := blocks[0].out, vm.next;
      var pos := 0;
      var outputs := [];
      for i := 0 to |blocks|
        invariant vm.Valid() && pos == 16 * i && |outputs| == i
        invariant vm.next == out + pos && (i > 0 ==> outputs[0] == out)
        invariant vm.mem == old(vm.mem) && vm.committed == old(vm.committed) && Extends(old(vm.S()), vm.S())
        invariant NewGates(old(vm.gates), vm.gates, out)
        invariant forall j :: 0 <= j < pos ==> XorAt(vm.gates, ks, input.ptr, out, j)
      {
        ghost var before := vm.gates;
        var output := vm.CallXor(blocks[i].out, input.ptr + pos);
        XorStep(before, vm.gates, ks, input.ptr, out, pos);
        outputs := outputs + [output];
        pos := pos + 16;
      }
      return Ok(Slice(outputs[0], 16 * |blocks|));
    }

    /** The first `len` bytes, when exactly the blocks for them are there. */
    method ToVector(len: nat) returns (r: Result<Slice, CipherError>)
      requires Contiguous(blocks)
      ensures r.Ok? <==> len > 0 && Blocks(len) == |blocks|
      ensures r.Ok? ==> r.value == Slice(blocks[0].out, len) && forall j :: 0 <= j < len ==> r.value.ptr + j == blocks[j / 16].out + j % 16
    {
      if len == 0 || blocks == [] { return Err(EmptyKeystream); }
      var count := Blocks(len);
      if count != |blocks| { return Err(Insufficient); }
      forall j | 0 <= j < len
        ensures blocks[0].out + j == blocks[j / 16].out + j % 16
      {
        assert j / 16 < |blocks|;
      }
      return Ok(Slice(blocks[0].out, len));
    }

    /** Gives every block the nonce and its counter, counting up from `start` in 32 bits. */
    method Assign(vm: Vm, nonce: seq<byte>, start: nat, ghost nc: nat, ghost ks: nat)
      requires vm.Valid() && |nonce| == 8 && Laid(blocks, nc, ks)
      requires nc + 12 * |blocks| <= vm.next && Free(vm.S(), nc, 12 * |blocks|)
      modifies vm
      ensures vm.Valid() && vm.next == old(vm.next) && vm.gates == old(vm.gates)
      ensures Extends(old(vm.S()), vm.S()) && SameOutside(old(vm.S()), vm.S(), nc, 12 * |blocks|)
      ensures forall i :: 0 <= i < |blocks| ==> AssignedAt(vm.S(), nc, i, nonce, start)
    {
      hide Be, AssignedAt;
      var ctr := start;
      ghost var s0 := vm.S();
      for i := 0 to |blocks|
        invariant vm.Valid() && vm.next == old(vm.next) && vm.gates == old(vm.gates) && ctr == start + i
        invariant Extends(s0, vm.S()) && SameOutside(s0, vm.S(), nc, 12 * i)
        invariant forall j :: 0 <= j < i ==> AssignedAt(vm.S(), nc, j, nonce, start)
      {
        ghost var s := vm.S();
        AssignBlock(vm, blocks[i], nonce, ctr, nc, i, start, s0);
        forall j | 0 <= j < i
          ensures AssignedAt(vm.S(), nc, j, nonce, start)
        {
          AssignedKept(s, vm.S(), nc, j, nonce, start);
        }
        ExtendsTwice(s0, s, vm.S());
        ctr := ctr + 1;
      }
    }

    static method AssignBlock(vm: Vm, block: CtrBlock, nonce: seq<byte>, ctr: nat, ghost nc: nat, ghost i: nat, ghost start: nat, ghost s0: VmState)
      requires vm.Valid() && ctr == start + i && |nonce| == 8 && block.nonce == nc + 12 * i && block.ctr == nc + 12 * i + 8
      requires nc + 12 * (i + 1) <= vm.next && Free(s0, nc, 12 * (i + 1)) && SameOutside(s0, vm.S(), nc, 12 * i)
      modifies vm
      ensures vm.Valid() && vm.next == old(vm.next) && vm.gates == old(vm.gates)
      ensures Extends(old(vm.S()), vm.S()) && SameOutside(s0, vm.S(), nc, 12 * (i + 1))
      ensures AssignedAt(vm.S(), nc, i, nonce, start)
    {
      hide Be, Extends;
      ghost var s := vm.S();
      StillFree(s0, s, nc, 12 * i, 12);
      AssignPublic(vm, Slice(block.nonce, 8), nonce);
      ghost var t := vm.S();
      OutsideTwice(s0, s, t, nc, 12 * i, 8);
      StillFree(s0, t, nc, 12 * i + 8, 4);
      AssignPublic(vm, Slice(block.ctr, 4), Be(ctr % Gctr.CTR_MOD, 4));
      OutsideTwice(s0, t, vm.S(), nc, 12 * i + 8, 4);
      ExtendsTwice(s, t, vm.S());
      ExtendsKeeps(t, vm.S(), block.nonce, 8);
    }
  }

  lemma XorStep(before: map<nat, Gate>, after: map<nat, Gate>, ks: nat, input: nat, out: nat, pos: nat)
    requires after == before + XorGates(out + pos, ks + pos, input + pos)
    requires forall j :: 0 <= j < pos ==> XorAt(before, ks, input, out, j)
    ensures forall j :: 0 <= j < pos + 16 ==> XorAt(after, ks, input, out, j)
  {
    forall j | 0 <= j < pos + 16
      ensures XorAt(after, ks, input, out, j)
    {
      if j < pos {
        assert XorAt(before, ks, input, out, j);
      }
    }
  }

  lemma AesStep(before: map<nat, Gate>, after: map<nat, Gate>, nc: nat, ks: nat, i: nat)
    requires after == before + AesGates(ks + 16 * i, nc + 12 * i, nc + 12 * i + 8)
    requires forall j :: 0 <= j < 16 * i ==> AesAt(before, nc, ks, j)
    ensures forall j :: 0 <= j < 16 * i + 16 ==> AesAt(after, nc, ks, j)
  {
    forall j | 0 <= j < 16 * i + 16
      ensures AesAt(after, nc, ks, j)
    {
      if j < 16 * i {
        assert AesAt(before, nc, ks, j);
      } else {
        assert j / 16 == i && j % 16 == j - 16 * i;
      }
    }
  }

  lemma NoNewGates(gates: map<nat, Gate>, ptr: nat)
    ensures NewGates(gates, gates, ptr)
  {
  }

  lemma NewGatesStep(first: map<nat, Gate>, before: map<nat, Gate>, after: map<nat, Gate>, ptr: nat, out: nat, nonce: nat, ctr: nat)
    requires NewGates(first, before, ptr) && after == before + AesGates(out, nonce, ctr) && ptr <= out
    ensures NewGates(first, after, ptr)
  {
  }

  lemma NothingLaid(nc: nat, ks: nat)
    ensures Laid([], nc, ks)
  {
  }

  lemma LaidStep(blocks: seq<CtrBlock>, nc: nat, ks: nat)
    requires Laid(blocks, nc, ks)
    ensures var i := |blocks|; Laid(blocks + [CtrBlock(nc + 12 * i, nc + 12 * i + 8, ks + 16 * i)], nc, ks)
  {
  }

  lemma LaidIsContiguous(blocks: seq<CtrBlock>, nc: nat, ks: nat)
    requires Laid(blocks, nc, ks)
    ensures Contiguous(blocks) && (blocks != [] ==> blocks[0].out == ks)
  {
  }

  /** A call adds gates behind everything allocated. */
  lemma CallExtends(s: VmState, t: VmState, nonce: nat, ctr: nat)
    requires forall a: nat :: a >= s.next ==> a !in s.gates
    requires t.next == s.next + 16 && t.mem == s.mem && t.committed == s.committed
    requires t.gates == s.gates + AesGates(s.next, nonce, ctr)
    ensures Extends(s, t)
  {
  }

  lemma AllocExtends(s: VmState, t: VmState)
    requires s.next <= t.next && t == s.(next := t.next)
    ensures Extends(s, t)
  {
  }

  method AllocInputs(vm: Vm, count: nat) returns (inputs: seq<(nat, nat)>)
    requires vm.Valid()
    modifies vm
    ensures vm.Valid() && vm.S() == old(vm.S()).(next := old(vm.next) + 12 * count)
    ensures |inputs| == count && forall j :: 0 <= j < count ==> inputs[j] == (old(vm.next) + 12 * j, old(vm.next) + 12 * j + 8)
  {
    inputs := [];
    for i := 0 to count
      invariant vm.Valid() && vm.S() == old(vm.S()).(next := old(vm.next) + 12 * i) && |inputs| == i
      invariant forall j :: 0 <= j < i ==> inputs[j] == (old(vm.next) + 12 * j, old(vm.next) + 12 * j + 8)
    {
      var nonce := vm.Alloc(8);
      var ctr := vm.Alloc(4);
      inputs := inputs + [(nonce.ptr, ctr.ptr)];
    }
  }

  /** All nonces and counters first, then the AES calls, so that the outputs are contiguous. */
  method AllocKeystream(vm: Vm, keyed: bool, len: nat) returns (r: Result<Keystream, CipherError>)
    requires vm.Valid()
    modifies vm
    ensures vm.Valid() && (r.Ok? <==> keyed)
    ensures r.Ok? ==>
      var n := Blocks(len);
      var nc, ks := old(vm.next), old(vm.next) + 12 * n;
      && fresh(r.value) && |r.value.blocks| == n && Laid(r.value.blocks, nc, ks)
      && vm.next == ks + 16 * n && vm.mem == old(vm.mem) && vm.committed == old(vm.committed)
      && Extends(old(vm.S()), vm.S()) && NewGates(old(vm.gates), vm.gates, ks)
      && forall j :: 0 <= j < 16 * n ==> AesAt(vm.gates, nc, ks, j)
  {
    hide AesAt, NewGates, Laid, Blocks, AesGates, Contiguous, Extends;
    if !keyed { return Err(KeyNotSet); }
    ghost var s, nc := vm.S(), vm.next;
    var inputs := AllocInputs(vm, Blocks(len));
    ghost var ks := vm.next;
    AllocExtends(s, vm.S());
    NoNewGates(vm.gates, ks);
    var blocks := [];
    NothingLaid(nc, ks);
    for i := 0 to |inputs|
      invariant vm.Valid() && vm.next == ks + 16 * i && |blocks| == i && Laid(blocks, nc, ks)
      invariant vm.mem == s.mem && vm.committed == s.committed && Extends(s, vm.S())
      invariant NewGates(s.gates, vm.gates, ks)
      invariant forall j :: 0 <= j < 16 * i ==> AesAt(vm.gates, nc, ks, j)
    {
      ghost var before, now := vm.gates, vm.S();
      var out := vm.CallAes(inputs[i].0, inputs[i].1);
      CallExtends(now, vm.S(), inputs[i].0, inputs[i].1);
      ExtendsTwice(s, now, vm.S());
      AesStep(before, vm.gates, nc, ks, i);
      NewGatesStep(s.gates, before, vm.gates, ks, out, inputs[i].0, inputs[i].1);
      LaidStep(blocks, nc, ks);
      blocks := blocks + [CtrBlock(inputs[i].0, inputs[i].1, out)];
    }
    LaidIsContiguous(blocks, nc, ks);
    r := Keystream.New(blocks);
  }
}
