/** Byte strings, the result types, and the block arithmetic every component shares. */
module Bytes {
  type byte = bv8

  datatype Option<+T> = None | Some(value: T)

  datatype Result<+T, +E> = Ok(value: T) | Err(error: E)

  /** XORs `b` into `a` up to the end of the shorter one; bytes of `a` past the end of `b` stay. */
  function XorInto(a: seq<byte>, b: seq<byte>): (r: seq<byte>)
    ensures |r| == |a|
  {
    seq(|a|, i requires 0 <= i < |a| => if i < |b| then a[i] ^ b[i] else a[i])
  }

  lemma XorCancels(a: seq<byte>, b: seq<byte>)
    ensures XorInto(XorInto(a, b), b) == a
  {
  }

  lemma XorCommutes(a: seq<byte>, b: seq<byte>)
    requires |a| == |b|
    ensures XorInto(a, b) == XorInto(b, a)
  {
  }

  function Zeros(n: nat): (r: seq<byte>)
    ensures |r| == n
  {
    seq(n, _ => 0)
  }

  /** The low `len` bytes of `n`, most significant first. */
  function Be(n: nat, len: nat): (r: seq<byte>)
    ensures |r| == len
  {
    if len == 0 then [] else Be(n / 256, len - 1) + [(n % 256) as byte]
  }

  function FromBe(b: seq<byte>): nat {
    if b == [] then 0 else 256 * FromBe(b[..|b| - 1]) + b[|b| - 1] as nat
  }

  function Pow256(len: nat): nat {
    if len == 0 then 1 else 256 * Pow256(len - 1)
  }

  lemma NextByte(b: byte)
    requires b as nat < 255
    ensures (b + 1) as nat == b as nat + 1
  {
  }

  /** The `n`-th byte, counted up from zero. */
  ghost function ByteAfter(n: nat): (b: byte)
    requires n < 256
    ensures b as nat == n
  {
    if n == 0 then 0 else NextByte(ByteAfter(n - 1)); ByteAfter(n - 1) + 1
  }

  lemma ByteRoundTrip(n: nat)
    requires n < 256
    ensures (n as byte) as nat == n
  {
    var b := ByteAfter(n);
    assert (b as nat) as byte == b;
  }

  lemma {:induction false} BeRoundTrip(n: nat, len: nat)
    requires n < Pow256(len)
    ensures FromBe(Be(n, len)) == n
    decreases len
  {
    if len > 0 {
      var front, last := Be(n / 256, len - 1), (n % 256) as byte;
      BeRoundTrip(n / 256, len - 1);
      ByteRoundTrip(n % 256);
      assert (front + [last])[..len - 1] == front;
    }
  }

  /** How many 16-byte blocks hold `len` bytes. */
  function Blocks(len: nat): nat {
    (len + 15) / 16
  }

  /** Length rounded up to whole 16-byte blocks. */
  function Padded(len: nat): (r: nat)
    ensures len <= r < len + 16 && r % 16 == 0
  {
    16 * Blocks(len)
  }

  /** Padded lengths of the first `n` entries. */
  function PaddedTo(lens: seq<nat>, n: nat): nat
    requires n <= |lens|
    decreases n
  {
    if n == 0 then 0 else PaddedTo(lens, n - 1) + Padded(lens[n - 1])
  }

  function SumTo(lens: seq<nat>, n: nat): nat
    requires n <= |lens|
    decreases n
  {
    if n == 0 then 0 else SumTo(lens, n - 1) + lens[n - 1]
  }

  function SumPadded(lens: seq<nat>): nat {
    PaddedTo(lens, |lens|)
  }

  function Sum(lens: seq<nat>): nat {
    SumTo(lens, |lens|)
  }

  lemma {:induction false} PaddedToMonotone(lens: seq<nat>, m: nat, n: nat)
    requires m <= n <= |lens|
    ensures PaddedTo(lens, m) <= PaddedTo(lens, n)
    decreases n
  {
    if m < n {
      PaddedToMonotone(lens, m, n - 1);
    }
  }

  lemma PaddedToZero(lens: seq<nat>)
    ensures PaddedTo(lens, 0) == 0
  {
  }

  lemma PaddedToStep(lens: seq<nat>, i: nat)
    requires i < |lens|
    ensures PaddedTo(lens, i + 1) == PaddedTo(lens, i) + Padded(lens[i]) <= SumPadded(lens)
  {
    PaddedToMonotone(lens, i + 1, |lens|);
  }

  lemma {:induction false} SumToMonotone(lens: seq<nat>, m: nat, n: nat)
    requires m <= n <= |lens|
    ensures SumTo(lens, m) <= SumTo(lens, n)
    decreases n
  {
    if m < n {
      SumToMonotone(lens, m, n - 1);
    }
  }

  /** The entries of `part` follow the first `m` of `lens`. */
  predicate Continues(lens: seq<nat>, m: nat, part: seq<nat>) {
    m + |part| <= |lens| && forall i :: 0 <= i < |part| ==> lens[m + i] == part[i]
  }

  lemma {:induction false} PaddedToSplit(lens: seq<nat>, m: nat, part: seq<nat>, c: nat)
    requires Continues(lens, m, part) && c <= |part|
    ensures PaddedTo(lens, m + c) == PaddedTo(lens, m) + PaddedTo(part, c)
    decreases c
  {
    if c > 0 {
      PaddedToSplit(lens, m, part, c - 1);
      assert lens[m + (c - 1)] == part[c - 1];
    }
  }

  lemma {:induction false} SumToSplit(lens: seq<nat>, m: nat, part: seq<nat>, c: nat)
    requires Continues(lens, m, part) && c <= |part|
    ensures SumTo(lens, m + c) == SumTo(lens, m) + SumTo(part, c)
    decreases c
  {
    if c > 0 {
      SumToSplit(lens, m, part, c - 1);
      assert lens[m + (c - 1)] == part[c - 1];
    }
  }

  lemma PaddedToExtends(lens: seq<nat>, longer: seq<nat>, n: nat)
    requires n <= |lens| <= |longer| && forall i :: 0 <= i < |lens| ==> longer[i] == lens[i]
    ensures PaddedTo(longer, n) == PaddedTo(lens, n)
  {
    PaddedToSplit(longer, 0, lens, n);
  }

  lemma SumToExtends(lens: seq<nat>, longer: seq<nat>, n: nat)
    requires n <= |lens| <= |longer| && forall i :: 0 <= i < |lens| ==> longer[i] == lens[i]
    ensures SumTo(longer, n) == SumTo(lens, n)
  {
    SumToSplit(longer, 0, lens, n);
  }
}
