/**
 * HMAC-SHA256 from intermediate hash states, with the compression function left abstract:
 * SHA-256 as section 5 of FIPS 180-4 pads and chains it, HMAC as section 2 of RFC 2104 defines it.
 */
module HmacSha256 {
  import opened Bytes

  /** Eight 32-bit words. */
  type Words = w: seq<bv32> | |w| == 8 witness [0, 0, 0, 0, 0, 0, 0, 0]

  /** The compression function: a chaining value and a 64-byte block. */
  type Compress = (Words, seq<byte>) -> Words

  const INITIAL: Words := [
    0x6a09e667, 0xbb67ae85, 0x3c6ef372, 0xa54ff53a, 0x510e527f, 0x9b05688c, 0x1f83d9ab, 0x5be0cd19]

  const BLOCK: nat := 64

  function WordBytes(w: bv32): (r: seq<byte>)
    ensures |r| == 4
  {
    [((w >> 24) & 0xFF) as byte, ((w >> 16) & 0xFF) as byte, ((w >> 8) & 0xFF) as byte, (w & 0xFF) as byte]
  }

  /** Most significant byte first. */
  lemma WordReads(w: bv32)
    ensures var b := WordBytes(w); (b[0] as bv32 << 24) | (b[1] as bv32 << 16) | (b[2] as bv32 << 8) | b[3] as bv32 == w
  {
  }

  function Digest(s: Words): (r: seq<byte>)
    ensures |r| == 32
  {
    WordBytes(s[0]) + WordBytes(s[1]) + WordBytes(s[2]) + WordBytes(s[3])
      + WordBytes(s[4]) + WordBytes(s[5]) + WordBytes(s[6]) + WordBytes(s[7])
  }

  /** Chains whole blocks. */
  function Absorb(f: Compress, state: Words, data: seq<byte>): Words
    requires |data| % BLOCK == 0
    decreases |data|
  {
    if data == [] then state else Absorb(f, f(state, data[..BLOCK]), data[BLOCK..])
  }

  /** How many zeros the padding of `n` bytes needs. */
  function ZeroCount(n: nat): nat {
    (119 - n % BLOCK) % BLOCK
  }

  function Repeat(b: byte, n: nat): (r: seq<byte>)
    ensures |r| == n && forall i :: 0 <= i < n ==> r[i] == b
  {
    seq(n, _ => b)
  }

  /** A one bit, zeros, and the length in bits of the whole message, of which `pos` bytes came before. */
  function Padding(pos: nat, len: nat): seq<byte> {
    [0x80] + Repeat(0, ZeroCount(pos + len)) + Be(8 * (pos + len), 8)
  }

  lemma PaddedWhole(pos: nat, len: nat)
    requires pos % BLOCK == 0
    ensures (len + |Padding(pos, len)|) % BLOCK == 0
  {
    hide Be;
  }

  /** Section 5.1.1 of FIPS 180-4: after the one bit, the fewest zeros that leave eight bytes of a block for the bit length. */
  lemma PaddingIs(len: nat)
    ensures var p, zeros := Padding(0, len), (119 - len % 64) % 64;
      && |p| == 9 + zeros && p[0] == 0x80 && zeros < 64
      && (forall i :: 1 <= i <= zeros ==> p[i] == 0)
      && (len + 1 + zeros) % 64 == 56
      && p[1 + zeros..] == Be(8 * len, 8)
  {
    hide Be;
  }

  /** The digest of a message whose first `pos` bytes `state` has absorbed. */
  function Sha256(f: Compress, state: Words, pos: nat, msg: seq<byte>): (r: seq<byte>)
    requires pos % BLOCK == 0
    ensures |r| == 32
  {
    PaddedWhole(pos, |msg|);
    Digest(Absorb(f, state, msg + Padding(pos, |msg|)))
  }

  /** The standard's hash. */
  function Hash(f: Compress, msg: seq<byte>): (r: seq<byte>)
    ensures |r| == 32
  {
    Sha256(f, INITIAL, 0, msg)
  }

  /** Absorbing a block first and continuing from its state is hashing the concatenation. */
  lemma Midstate(f: Compress, block: seq<byte>, msg: seq<byte>)
    requires |block| == BLOCK
    ensures Sha256(f, f(INITIAL, block), BLOCK, msg) == Hash(f, block + msg)
  {
    hide Digest, Be;
    PaddedWhole(BLOCK, |msg|);
    PaddedWhole(0, BLOCK + |msg|);
    var whole := block + msg + Padding(0, BLOCK + |msg|);
    assert Padding(0, BLOCK + |msg|) == Padding(BLOCK, |msg|);
    assert whole[..BLOCK] == block && whole[BLOCK..] == msg + Padding(BLOCK, |msg|);
  }

  // ---- HMAC ----

  /** The states after the key XORed with the outer and the inner pad. */
  function OuterState(f: Compress, key: seq<byte>): Words
    requires |key| <= BLOCK
  {
    f(INITIAL, XorInto(Repeat(0x5c, BLOCK), key))
  }

  function InnerState(f: Compress, key: seq<byte>): Words
    requires |key| <= BLOCK
  {
    f(INITIAL, XorInto(Repeat(0x36, BLOCK), key))
  }

  /** XORs the key into both arrays at once. */
  method XorBoth(opad: array<byte>, ipad: array<byte>, key: seq<byte>)
    requires opad != ipad && |key| <= opad.Length == ipad.Length
    modifies opad, ipad
    ensures opad[..] == XorInto(old(opad[..]), key) && ipad[..] == XorInto(old(ipad[..]), key)
  {
    hide XorInto;
    ghost var was, wasInner := opad[..], ipad[..];
    XorNothing(was);
    XorNothing(wasInner);
    assert key[..0] == [];
    for i := 0 to |key|
      invariant opad[..] == XorInto(was, key[..i]) && ipad[..] == XorInto(wasInner, key[..i])
    {
      XorNext(was, key, i);
      XorNext(wasInner, key, i);
      opad[i], ipad[i] := opad[i] ^ key[i], ipad[i] ^ key[i];
    }
    assert key[..|key|] == key;
  }

  lemma XorNothing(a: seq<byte>)
    ensures XorInto(a, []) == a
  {
  }

  lemma XorNext(a: seq<byte>, b: seq<byte>, i: nat)
    requires i < |b| <= |a|
    ensures var before := XorInto(a, b[..i]); XorInto(a, b[..i + 1]) == before[i := before[i] ^ b[i]]
  {
  }

  /** XORs the key into both pads in place, then compresses them. Longer keys are refused (the source panics). */
  method HmacSha256Partial(f: Compress, key: seq<byte>) returns (outer: Words, inner: Words)
    requires |key| <= BLOCK
    ensures outer == OuterState(f, key) && inner == InnerState(f, key)
  {
    hide XorInto;
    var opad := new byte[BLOCK](_ => 0x5c);
    var ipad := new byte[BLOCK](_ => 0x36);
    assert opad[..] == Repeat(0x5c, BLOCK) && ipad[..] == Repeat(0x36, BLOCK);
    XorBoth(opad, ipad, key);
    outer, inner := f(INITIAL, opad[..]), f(INITIAL, ipad[..]);
  }

  function HmacSha256Finalize(f: Compress, outer: Words, inner: Words, msg: seq<byte>): (r: seq<byte>)
    ensures |r| == 32
  {
    Sha256(f, outer, BLOCK, Sha256(f, inner, BLOCK, msg))
  }

  /** Section 2 of RFC 2104: H(K XOR opad, H(K XOR ipad, text)), K zero-padded to the block length. */
  function Hmac(f: Compress, key: seq<byte>, text: seq<byte>): (r: seq<byte>)
    requires |key| <= BLOCK
    ensures |r| == 32
  {
    var k := key + Repeat(0, BLOCK - |key|);
    Hash(f, XorInto(k, Repeat(0x5c, BLOCK)) + Hash(f, XorInto(k, Repeat(0x36, BLOCK)) + text))
  }

  lemma XorPads(key: seq<byte>, pad: byte)
    requires |key| <= BLOCK
    ensures XorInto(Repeat(pad, BLOCK), key) == XorInto(key + Repeat(0, BLOCK - |key|), Repeat(pad, BLOCK))
  {
    var k := key + Repeat(0, BLOCK - |key|);
    forall i | 0 <= i < BLOCK
      ensures XorInto(Repeat(pad, BLOCK), key)[i] == XorInto(k, Repeat(pad, BLOCK))[i]
    {
      XorZeroComm(pad, k[i]);
    }
  }

  lemma XorZeroComm(x: byte, y: byte)
    ensures x ^ y == y ^ x && (y == 0 ==> y ^ x == x)
  {
  }

  /** From the two states of a key of at most a block, finalizing is HMAC. */
  lemma FinalizeIsHmac(f: Compress, key: seq<byte>, msg: seq<byte>)
    requires |key| <= BLOCK
    ensures HmacSha256Finalize(f, OuterState(f, key), InnerState(f, key), msg) == Hmac(f, key, msg)
  {
    hide Sha256, Hash, XorInto;
    XorPads(key, 0x5c);
    XorPads(key, 0x36);
    var i, o := XorInto(Repeat(0x36, BLOCK), key), XorInto(Repeat(0x5c, BLOCK), key);
    Midstate(f, i, msg);
    Midstate(f, o, Sha256(f, f(INITIAL, i), BLOCK, msg));
  }
}
