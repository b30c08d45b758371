/**
 * AES in counter mode as the 12-byte-nonce GCM of TLS 1.2 uses it, with the block
 * function left abstract. The stream is stated byte by byte and shown to be the
 * block-by-block GCTR of NIST SP 800-38D.
 */
module Gctr {
  import opened Bytes

  const START_CTR: nat := 2
  const CTR_MOD: nat := 0x1_0000_0000

  /** Byte `j` of the cipher applied to an input block under a key. */
  type BlockCipher = (seq<byte>, seq<byte>, nat) -> byte
  /** Byte `j` of the tag for a nonce, additional data and a ciphertext. */
  type TagFunction = (seq<byte>, seq<byte>, seq<byte>, nat) -> byte

  /** One direction's 16-byte write key and 4-byte implicit IV. */
  datatype RawKey = Key(aes: BlockCipher, mac: TagFunction, key: seq<byte>, iv: seq<byte>)

  type Key = k: RawKey | |k.key| == 16 && |k.iv| == 4
    witness Key((_, _, _) => 0, (_, _, _, _) => 0, seq(16, _ => 0), seq(4, _ => 0))

  function CtrByte(k: Key, nonce: seq<byte>, ctr: nat, j: nat): byte {
    k.aes(k.key, k.iv + nonce + Be(ctr % CTR_MOD, 4), j)
  }

  /** Byte `p` of the record's keystream: blocks count up from 2, sixteen bytes each. */
  function KeystreamByte(k: Key, nonce: seq<byte>, p: nat): byte {
    CtrByte(k, nonce, START_CTR + p / 16, p % 16)
  }

  function Keystream(k: Key, nonce: seq<byte>, len: nat): (r: seq<byte>)
    ensures |r| == len
  {
    seq(len, p requires p >= 0 => KeystreamByte(k, nonce, p))
  }

  /** Encryption and decryption alike. */
  function Apply(k: Key, nonce: seq<byte>, data: seq<byte>): (r: seq<byte>)
    ensures |r| == |data|
  {
    XorInto(data, Keystream(k, nonce, |data|))
  }

  function Tag(k: Key, nonce: seq<byte>, aad: seq<byte>, ciphertext: seq<byte>): (r: seq<byte>)
    ensures |r| == 16
  {
    seq(16, j requires 0 <= j => k.mac(k.iv + nonce, aad, ciphertext, j))
  }

  lemma ApplyTwice(k: Key, nonce: seq<byte>, data: seq<byte>)
    ensures Apply(k, nonce, Apply(k, nonce, data)) == data
  {
    XorCancels(data, Keystream(k, nonce, |data|));
  }

  // ---- The standard's own formulation ----

  /** Section 6.2: inc32, acting on the low word of a counter block. */
  function Inc32(ctr: nat): nat {
    (ctr + 1) % CTR_MOD
  }

  /** Section 6.5: GCTR with an initial counter block iv || nonce || ctr. */
  function GctrRef(k: Key, nonce: seq<byte>, ctr: nat, x: seq<byte>): seq<byte>
    decreases |x|
  {
    if |x| == 0 then []
    else
      var n := if |x| < 16 then |x| else 16;
      seq(n, i requires 0 <= i < n => x[i] ^ CtrByte(k, nonce, ctr, i))
        + GctrRef(k, nonce, Inc32(ctr), x[n..])
  }

  /** Section 7.1 step 3 with J0 = IV || 0^31 || 1: the data is processed from inc32(J0). */
  lemma ApplyIsGctr(k: Key, nonce: seq<byte>, x: seq<byte>)
    ensures Apply(k, nonce, x) == GctrRef(k, nonce, Inc32(1), x)
  {
    hide *;
    GctrRefLength(k, nonce, Inc32(1), x);
    forall p | 0 <= p < |x|
      ensures Apply(k, nonce, x)[p] == GctrRef(k, nonce, Inc32(1), x)[p]
    {
      ApplyByte(k, nonce, x, p);
      GctrRefByte(k, nonce, Inc32(1), x, p / 16, p % 16);
    }
  }

  lemma ApplyByte(k: Key, nonce: seq<byte>, x: seq<byte>, p: nat)
    requires p < |x|
    ensures Apply(k, nonce, x)[p] == x[p] ^ CtrByte(k, nonce, Inc32(1) + p / 16, p % 16)
  {
    hide CtrByte;
    assert Inc32(1) == START_CTR;
  }

  lemma {:induction false} GctrRefLength(k: Key, nonce: seq<byte>, ctr: nat, x: seq<byte>)
    ensures |GctrRef(k, nonce, ctr, x)| == |x|
    decreases |x|
  {
    if |x| > 0 {
      GctrRefLength(k, nonce, Inc32(ctr), x[if |x| < 16 then |x| else 16..]);
    }
  }

  lemma CounterWraps(k: Key, nonce: seq<byte>, ctr: nat, q: nat, j: nat)
    ensures CtrByte(k, nonce, Inc32(ctr) + q, j) == CtrByte(k, nonce, ctr + 1 + q, j)
  {
    assert (Inc32(ctr) + q) % CTR_MOD == (ctr + 1 + q) % CTR_MOD;
  }

  lemma GctrRefTail(k: Key, nonce: seq<byte>, ctr: nat, x: seq<byte>, p: nat)
    requires 16 <= p < |x| == |GctrRef(k, nonce, ctr, x)|
    ensures |GctrRef(k, nonce, Inc32(ctr), x[16..])| == |x[16..]|
    ensures GctrRef(k, nonce, ctr, x)[p] == GctrRef(k, nonce, Inc32(ctr), x[16..])[p - 16]
  {
    GctrRefLength(k, nonce, Inc32(ctr), x[16..]);
  }

  lemma GctrRefHead(k: Key, nonce: seq<byte>, ctr: nat, x: seq<byte>, p: nat)
    requires p < 16 && p < |x| == |GctrRef(k, nonce, ctr, x)|
    ensures GctrRef(k, nonce, ctr, x)[p] == x[p] ^ CtrByte(k, nonce, ctr, p)
  {
  }

  /** Byte `j` of block `q`. */
  lemma {:induction false} GctrRefByte(k: Key, nonce: seq<byte>, ctr: nat, x: seq<byte>, q: nat, j: nat)
    requires j < 16 && 16 * q + j < |x| == |GctrRef(k, nonce, ctr, x)|
    ensures GctrRef(k, nonce, ctr, x)[16 * q + j] == x[16 * q + j] ^ CtrByte(k, nonce, ctr + q, j)
    decreases q
  {
    hide *;
    if q == 0 {
      GctrRefHead(k, nonce, ctr, x, j);
    } else {
      GctrRefTail(k, nonce, ctr, x, 16 * q + j);
      GctrRefByte(k, nonce, Inc32(ctr), x[16..], q - 1, j);
      CounterWraps(k, nonce, ctr, q - 1, j);
    }
  }
}
