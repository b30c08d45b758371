/**
 * The zero-knowledge virtual machine as the plaintext proofs use it: a memory of bytes that
 * are assigned and then committed, and gates over it. Addresses count bytes.
 */
module ZkVm {
  import opened Bytes
  import opened RecordTypes
  import Gctr

  datatype ZkRole = Prover | Verifier

  /** Byte `j` of the counter block at `nonce` and `ctr` under the key; or the XOR of two bytes. */
  datatype Gate = AesByte(nonce: nat, ctr: nat, j: nat) | XorByte(x: nat, y: nat)

  datatype VmState = VmState(next: nat, mem: map<nat, byte>, committed: set<nat>, gates: map<nat, Gate>)

  datatype VmError = LengthMismatch | AlreadyCommitted | Unassigned

  predicate Has(s: VmState, ptr: nat, len: nat) {
    forall a: nat :: ptr <= a < ptr + len ==> a in s.mem && a in s.committed
  }

  function BytesAt(s: VmState, ptr: nat, len: nat): (r: seq<byte>)
    requires Has(s, ptr, len)
    ensures |r| == len
  {
    seq(len, i requires 0 <= i < len => s.mem[ptr + i])
  }

  /** The value an address denotes, once everything it depends on is committed. */
  function ByteAt(k: Gctr.Key, s: VmState, a: nat): Option<byte>
    decreases a
  {
    if a in s.gates then
      match s.gates[a]
      case AesByte(nonce, ctr, j) =>
        if Has(s, nonce, 8) && Has(s, ctr, 4) then Some(k.aes(k.key, k.iv + BytesAt(s, nonce, 8) + BytesAt(s, ctr, 4), j)) else None
      case XorByte(x, y) =>
        if x >= a || y >= a || ByteAt(k, s, x).None? || ByteAt(k, s, y).None? then None
        else Some(ByteAt(k, s, x).value ^ ByteAt(k, s, y).value)
    else if a in s.mem && a in s.committed then Some(s.mem[a])
    else None
  }

  /** What a decode of a range yields after execution. */
  function Decoded(k: Gctr.Key, s: VmState, ptr: nat, len: nat): Option<seq<byte>>
    decreases len
  {
    if len == 0 then Some([])
    else if Decoded(k, s, ptr, len - 1).None? || ByteAt(k, s, ptr + len - 1).None? then None
    else Some(Decoded(k, s, ptr, len - 1).value + [ByteAt(k, s, ptr + len - 1).value])
  }

  lemma {:induction false} DecodedIs(k: Gctr.Key, s: VmState, ptr: nat, bytes: seq<byte>)
    requires forall i :: 0 <= i < |bytes| ==> ByteAt(k, s, ptr + i) == Some(bytes[i])
    ensures Decoded(k, s, ptr, |bytes|) == Some(bytes)
    decreases |bytes|
  {
    hide ByteAt;
    if bytes != [] {
      var n := |bytes| - 1;
      DecodedIs(k, s, ptr, bytes[..n]);
      assert ByteAt(k, s, ptr + n) == Some(bytes[n]);
      assert bytes[..n] + [bytes[n]] == bytes;
    }
  }

  predicate Within(ptr: nat, len: nat, a: nat) {
    ptr <= a < ptr + len
  }

  function AesGates(out: nat, nonce: nat, ctr: nat): map<nat, Gate> {
    map a: nat | out <= a < out + 16 && Within(out, 16, a) :: AesByte(nonce, ctr, a - out)
  }

  function XorGates(out: nat, x: nat, y: nat): map<nat, Gate> {
    map a: nat | out <= a < out + 16 && Within(out, 16, a) :: XorByte(x + (a - out), y + (a - out))
  }

  function Bound(ptr: nat, bytes: seq<byte>): map<nat, byte> {
    map a: nat | ptr <= a < ptr + |bytes| && Within(ptr, |bytes|, a) :: bytes[a - ptr]
  }

  function Range(ptr: nat, len: nat): set<nat> {
    set a: nat | ptr <= a < ptr + len && Within(ptr, len, a)
  }

  predicate Free(s: VmState, ptr: nat, len: nat) {
    forall a: nat :: ptr <= a < ptr + len ==> a !in s.mem && a !in s.committed
  }

  /** Nothing committed is lost or changed. */
  predicate Extends(s: VmState, t: VmState) {
    && s.next <= t.next
    && (forall a: nat :: a in s.gates ==> a in t.gates && t.gates[a] == s.gates[a])
    && (forall a: nat :: a in s.committed ==> a in t.committed)
    && (forall a: nat :: a in s.committed && a in s.mem ==> a in t.mem && t.mem[a] == s.mem[a])
  }

  lemma ExtendsTwice(s: VmState, t: VmState, u: VmState)
    requires Extends(s, t) && Extends(t, u)
    ensures Extends(s, u)
  {
  }

  lemma ExtendsSelf(s: VmState)
    ensures Extends(s, s)
  {
  }

  lemma ExtendsKeeps(s: VmState, t: VmState, ptr: nat, len: nat)
    requires Extends(s, t) && Has(s, ptr, len)
    ensures Has(t, ptr, len) && BytesAt(t, ptr, len) == BytesAt(s, ptr, len)
  {
  }

  class Vm {
    const role: ZkRole
    const k: Gctr.Key
    /** What the prover assigns to memory the verifier is blind to. */
    const blindBytes: nat -> byte
    var next: nat
    var mem: map<nat, byte>
    var committed: set<nat>
    var gates: map<nat, Gate>

    constructor (role: ZkRole, k: Gctr.Key, blindBytes: nat -> byte)
      ensures this.role == role && this.k == k && this.blindBytes == blindBytes && S() == VmState(0, map[], {}, map[])
    {
      this.role := role;
      this.k := k;
      this.blindBytes := blindBytes;
      next, mem, committed, gates := 0, map[], {}, map[];
    }

    function S(): VmState
      reads this
    {
      VmState(next, mem, committed, gates)
    }

    /** Addresses that were never allocated hold nothing. */
    ghost predicate Valid()
      reads this
    {
      forall a: nat :: a >= next ==> a !in mem && a !in committed && a !in gates
    }

    method Alloc(len: nat) returns (r: Slice)
      requires Valid()
      modifies this
      ensures Valid() && r == Slice(old(next), len) && S() == old(S()).(next := old(next) + len)
    {
      r := Slice(next, len);
      next := next + len;
    }

    method Assign(ref: Slice, bytes: seq<byte>) returns (r: Result<(), VmError>)
      requires Valid() && ref.ptr + ref.len <= next
      modifies this
      ensures Valid()
      ensures r.Ok? <==> |bytes| == ref.len && forall a: nat :: ref.ptr <= a < ref.ptr + ref.len ==> a !in old(committed)
      ensures r.Ok? ==> S() == old(S()).(mem := old(mem) + Bound(ref.ptr, bytes))
      ensures r.Err? ==> S() == old(S())
    {
      if |bytes| != ref.len { return Err(LengthMismatch); }
      if exists a: nat | ref.ptr <= a < ref.ptr + ref.len :: a in committed { return Err(AlreadyCommitted); }
      mem := mem + Bound(ref.ptr, bytes);
      return Ok(());
    }

    /** The prover must have assigned what it commits; the verifier takes the prover's bytes. */
    method Commit(ref: Slice) returns (r: Result<(), VmError>)
      requires Valid() && ref.ptr + ref.len <= next
      modifies this
      ensures Valid()
      ensures r.Ok? <==>
        && (forall a: nat :: ref.ptr <= a < ref.ptr + ref.len ==> a !in old(committed))
        && (role.Prover? ==> forall a: nat :: ref.ptr <= a < ref.ptr + ref.len ==> a in old(mem))
      ensures r.Ok? ==> S() == old(S()).(committed := old(committed) + Range(ref.ptr, ref.len),
                                         mem := Filled(old(mem), ref.ptr, ref.len))
      ensures r.Err? ==> S() == old(S())
    {
      if exists a: nat | ref.ptr <= a < ref.ptr + ref.len :: a in committed { return Err(AlreadyCommitted); }
      if role.Prover? && exists a: nat | ref.ptr <= a < ref.ptr + ref.len :: a !in mem { return Err(Unassigned); }
      committed := committed + Range(ref.ptr, ref.len);
      mem := Filled(mem, ref.ptr, ref.len);
      return Ok(());
    }

    /** Memory with the unassigned bytes of a range taken from the prover. */
    function Filled(m: map<nat, byte>, ptr: nat, len: nat): map<nat, byte> {
      m + map a: nat | ptr <= a < ptr + len && a !in m :: blindBytes(a)
    }

    method CallAes(nonce: nat, ctr: nat) returns (out: nat)
      requires Valid()
      modifies this
      ensures Valid() && out == old(next) && next == out + 16 && mem == old(mem) && committed == old(committed)
      ensures gates == old(gates) + AesGates(out, nonce, ctr)
    {
      out := next;
      gates := gates + AesGates(next, nonce, ctr);
      next := next + 16;
    }

    method CallXor(x: nat, y: nat) returns (out: nat)
      requires Valid()
      modifies this
      ensures Valid() && out == old(next) && next == out + 16 && mem == old(mem) && committed == old(committed)
      ensures gates == old(gates) + XorGates(out, x, y)
    {
      out := next;
      gates := gates + XorGates(next, x, y);
      next := next + 16;
    }
  }
}
