/** The TLS 1.2 pseudorandom function, section 5 of RFC 5246, and what is derived with it. */
module Prf {
  import opened Bytes
  import opened HmacSha256

  /** The two HMAC states that stand for a secret. */
  datatype Secret = Secret(f: Compress, outer: Words, inner: Words) {
    function Mac(msg: seq<byte>): (r: seq<byte>)
      ensures |r| == 32
    {
      HmacSha256Finalize(f, outer, inner, msg)
    }
  }

  // ---- The standard's definition ----

  /** A(0) = seed, A(i) = HMAC(secret, A(i-1)). */
  function A(s: Secret, seed: seq<byte>, i: nat): seq<byte>
    decreases i
  {
    if i == 0 then seed else s.Mac(A(s, seed, i - 1))
  }

  /** The first `n` terms of P_hash(secret, seed): HMAC(secret, A(1) + seed) + HMAC(secret, A(2) + seed) + ... */
  function PHash(s: Secret, seed: seq<byte>, n: nat): (r: seq<byte>)
    ensures |r| == 32 * n
    decreases n
  {
    if n == 0 then [] else PHash(s, seed, n - 1) + s.Mac(A(s, seed, n) + seed)
  }

  /** Terms needed for a number of bytes. */
  function Iterations(bytes: nat): (n: nat)
    ensures 32 * n >= bytes && (bytes > 0 ==> 32 * (n - 1) < bytes)
  {
    bytes / 32 + if bytes % 32 != 0 then 1 else 0
  }

  /** `name` is the label. PRF(secret, label, seed) = P_hash(secret, label + seed), cut to length. */
  function PrfOf(s: Secret, name: seq<byte>, seed: seq<byte>, bytes: nat): (r: seq<byte>)
    ensures |r| == bytes
  {
    PHash(s, name + seed, Iterations(bytes))[..bytes]
  }

  // ---- The implementations ----

  /** All of the A first, cached; then the terms. */
  method PHashCached(s: Secret, seed: seq<byte>, iterations: nat) returns (output: seq<byte>)
    ensures output == PHash(s, seed, iterations)
  {
    hide Secret.Mac;
    var cache := [seed];
    for i := 0 to iterations
      invariant |cache| == i + 1 && forall j :: 0 <= j <= i ==> cache[j] == A(s, seed, j)
    {
      cache := cache + [s.Mac(cache[i])];
    }
    output := [];
    for i := 0 to iterations
      invariant output == PHash(s, seed, i)
    {
      var aSeed := cache[i + 1];
      aSeed := aSeed + seed;
      output := output + s.Mac(aSeed);
    }
  }

  method PrfCached(s: Secret, seed: seq<byte>, name: seq<byte>, bytes: nat) returns (output: seq<byte>)
    ensures output == PrfOf(s, name, seed, bytes)
  {
    hide PHash;
    var iterations := bytes / 32 + if bytes % 32 != 0 then 1 else 0;
    var labelSeed := name;
    labelSeed := labelSeed + seed;
    output := PHashCached(s, labelSeed, iterations);
    output := output[..bytes];
  }

  /** Writes the output chunk by chunk, keeping only the current A: the form the tests compare against. */
  method PrfStreaming(s: Secret, out: array<byte>, name: seq<byte>, seed: seq<byte>)
    modifies out
    ensures out[..] == PrfOf(s, name, seed, out.Length)
  {
    hide Secret.Mac, PHash;
    var joined := name + seed;
    var currentA := s.Mac(joined);
    var pos, i := 0, 0;
    ghost var whole := PHash(s, joined, Iterations(out.Length));
    while pos < out.Length
      invariant 0 <= pos <= out.Length && currentA == A(s, joined, i + 1)
      invariant pos == if 32 * i < out.Length then 32 * i else out.Length
      invariant i <= Iterations(out.Length)
      invariant out[..pos] == whole[..pos]
      decreases out.Length - pos
    {
      var term := s.Mac(currentA + joined);
      var len := if out.Length - pos < 32 then out.Length - pos else 32;
      ghost var done := out[..pos];
      forall j | 0 <= j < len {
        out[pos + j] := term[j];
      }
      TermAt(s, joined, i, Iterations(out.Length));
      assert out[..pos + len] == done + term[..len];
      assert whole[..pos + len] == whole[..pos] + whole[32 * i..32 * (i + 1)][..len];
      currentA := s.Mac(currentA);
      pos, i := pos + len, i + 1;
    }
    assert out[..] == out[..pos];
  }

  /** Term `i` sits at offset 32 * i of any longer output. */
  lemma {:induction false} TermAt(s: Secret, seed: seq<byte>, i: nat, n: nat)
    requires i < n
    ensures PHash(s, seed, n)[32 * i..32 * (i + 1)] == s.Mac(A(s, seed, i + 1) + seed)
    decreases n
  {
    hide Secret.Mac, A;
    var before := PHash(s, seed, n - 1);
    if i < n - 1 {
      TermAt(s, seed, i, n - 1);
      assert PHash(s, seed, n)[32 * i..32 * (i + 1)] == before[32 * i..32 * (i + 1)];
    }
  }

  lemma {:induction false} PHashPrefix(s: Secret, seed: seq<byte>, m: nat, n: nat)
    requires m <= n
    ensures PHash(s, seed, m) <= PHash(s, seed, n)
    decreases n
  {
    hide Secret.Mac, A;
    if m < n {
      PHashPrefix(s, seed, m, n - 1);
    }
  }

  /** A shorter output is a prefix of a longer one. */
  lemma PrfPrefix(s: Secret, name: seq<byte>, seed: seq<byte>, m: nat, n: nat)
    requires m <= n
    ensures PrfOf(s, name, seed, m) == PrfOf(s, name, seed, n)[..m]
  {
    hide PHash;
    PHashPrefix(s, name + seed, Iterations(m), Iterations(n));
  }

  // ---- For a key: the standard's HMAC throughout ----

  function SecretOf(f: Compress, key: seq<byte>): Secret
    requires |key| <= BLOCK
  {
    Secret(f, OuterState(f, key), InnerState(f, key))
  }

  function AOf(f: Compress, key: seq<byte>, seed: seq<byte>, i: nat): seq<byte>
    requires |key| <= BLOCK
    decreases i
  {
    if i == 0 then seed else Hmac(f, key, AOf(f, key, seed, i - 1))
  }

  function PHashOf(f: Compress, key: seq<byte>, seed: seq<byte>, n: nat): seq<byte>
    requires |key| <= BLOCK
    decreases n
  {
    if n == 0 then [] else PHashOf(f, key, seed, n - 1) + Hmac(f, key, AOf(f, key, seed, n) + seed)
  }

  lemma {:induction false} AIsHmac(f: Compress, key: seq<byte>, seed: seq<byte>, i: nat)
    requires |key| <= BLOCK
    ensures A(SecretOf(f, key), seed, i) == AOf(f, key, seed, i)
    decreases i
  {
    hide Hmac, HmacSha256Finalize;
    if i > 0 {
      AIsHmac(f, key, seed, i - 1);
      FinalizeIsHmac(f, key, A(SecretOf(f, key), seed, i - 1));
    }
  }

  /** Started from the key's two states, P_hash is the standard's, with RFC 2104's HMAC. */
  lemma {:induction false} PHashIsStandard(f: Compress, key: seq<byte>, seed: seq<byte>, n: nat)
    requires |key| <= BLOCK
    ensures PHash(SecretOf(f, key), seed, n) == PHashOf(f, key, seed, n)
    decreases n
  {
    hide Hmac, HmacSha256Finalize, A, AOf;
    if n > 0 {
      PHashIsStandard(f, key, seed, n - 1);
      AIsHmac(f, key, seed, n);
      FinalizeIsHmac(f, key, A(SecretOf(f, key), seed, n) + seed);
    }
  }

  /**
   * For a key of at most a block, the PRF is section 5 of RFC 5246 throughout: P_hash over the
   * label followed by the seed, with RFC 2104's HMAC, from however many terms, cut to length.
   */
  lemma PrfIsStandard(f: Compress, key: seq<byte>, name: seq<byte>, seed: seq<byte>, bytes: nat, n: nat)
    requires |key| <= BLOCK && 32 * n >= bytes
    ensures |PHashOf(f, key, name + seed, n)| == 32 * n
    ensures PrfOf(SecretOf(f, key), name, seed, bytes) == PHashOf(f, key, name + seed, n)[..bytes]
  {
    hide PHash, PHashOf, SecretOf;
    var m := Iterations(bytes);
    PHashIsStandard(f, key, name + seed, n);
    PHashPrefix(SecretOf(f, key), name + seed, m, n);
  }

  // ---- Session keys and verify data ----

  const MASTER_SECRET: seq<byte> := [109, 97, 115, 116, 101, 114, 32, 115, 101, 99, 114, 101, 116]
  const KEY_EXPANSION: seq<byte> := [107, 101, 121, 32, 101, 120, 112, 97, 110, 115, 105, 111, 110]

  datatype SessionKeys = SessionKeys(
    clientWriteKey: seq<byte>, serverWriteKey: seq<byte>, clientIv: seq<byte>, serverIv: seq<byte>)

  /** Section 8.1 of RFC 5246, then the key block of section 6.3 cut as an AES-128-GCM suite needs it. */
  method DeriveSessionKeys(f: Compress, pms: seq<byte>, clientRandom: seq<byte>, serverRandom: seq<byte>)
    returns (keys: SessionKeys, master: Secret, ghost masterSecret: seq<byte>)
    requires |pms| <= BLOCK
    ensures var seed := [109, 97, 115, 116, 101, 114, 32, 115, 101, 99, 114, 101, 116] + clientRandom + serverRandom;
      |PHashOf(f, pms, seed, 2)| == 64 && masterSecret == PHashOf(f, pms, seed, 2)[..48]
    ensures |masterSecret| <= BLOCK && master == SecretOf(f, masterSecret)
    ensures |keys.clientWriteKey| == |keys.serverWriteKey| == 16 && |keys.clientIv| == |keys.serverIv| == 4
    ensures keys.clientWriteKey + keys.serverWriteKey + keys.clientIv + keys.serverIv
            == PrfOf(SecretOf(f, masterSecret), KEY_EXPANSION, serverRandom + clientRandom, 40)
    ensures var seed := [107, 101, 121, 32, 101, 120, 112, 97, 110, 115, 105, 111, 110] + serverRandom + clientRandom;
      |PHashOf(f, masterSecret, seed, 2)| == 64
      && keys.clientWriteKey + keys.serverWriteKey + keys.clientIv + keys.serverIv == PHashOf(f, masterSecret, seed, 2)[..40]
  {
    hide PHashOf, PrfOf, OuterState, InnerState;
    var outer, inner := HmacSha256Partial(f, pms);
    var ms := PrfCached(Secret(f, outer, inner), clientRandom + serverRandom, MASTER_SECRET, 48);
    masterSecret := ms;
    var msOuter, msInner := HmacSha256Partial(f, ms);
    master := Secret(f, msOuter, msInner);
    var material := PrfCached(master, serverRandom + clientRandom, KEY_EXPANSION, 40);
    keys := SessionKeys(material[0..16], material[16..32], material[32..36], material[36..40]);
    PrfIsStandard(f, pms, MASTER_SECRET, clientRandom + serverRandom, 48, 2);
    PrfIsStandard(f, masterSecret, KEY_EXPANSION, serverRandom + clientRandom, 40, 2);
    assert MASTER_SECRET + (clientRandom + serverRandom) == MASTER_SECRET + clientRandom + serverRandom;
    assert KEY_EXPANSION + (serverRandom + clientRandom) == KEY_EXPANSION + serverRandom + clientRandom;
  }

  /** Section 7.4.9 of RFC 5246: twelve bytes under the master secret. */
  method VerifyData(master: Secret, name: seq<byte>, hash: seq<byte>, ghost f: Compress, ghost masterSecret: seq<byte>)
    returns (vd: seq<byte>)
    requires |masterSecret| <= BLOCK && master == SecretOf(f, masterSecret)
    ensures |vd| == 12 && |PHashOf(f, masterSecret, name + hash, 1)| == 32
    ensures vd == PHashOf(f, masterSecret, name + hash, 1)[..12]
  {
    hide PHashOf, PrfOf;
    PrfIsStandard(f, masterSecret, name, hash, 12, 1);
    vd := PrfCached(master, hash, name, 12);
  }
}
