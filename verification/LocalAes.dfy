/**
 * The leader's local AES-CTR: the key is decoded under a one-time pad, then records are
 * decrypted with a seekable stream whose counter starts at zero.
 */
module LocalAes {
  import opened Bytes
  import opened Parties
  import opened Gctr
  import opened RecordTypes

  /** A 32-bit big-endian counter-mode stream positioned by byte. */
  class SeekableCtr {
    const aes: BlockCipher
    const key: seq<byte>
    const fullIv: seq<byte>
    var pos: nat

    constructor (aes: BlockCipher, key: seq<byte>, fullIv: seq<byte>)
      requires |fullIv| == 16
      ensures this.aes == aes && this.key == key && this.fullIv == fullIv && pos == 0
    {
      this.aes := aes;
      this.key := key;
      this.fullIv := fullIv;
      pos := 0;
    }

    function StreamByte(p: nat): byte
      requires |fullIv| == 16
    {
      aes(key, fullIv[..12] + Be((FromBe(fullIv[12..]) + p / 16) % CTR_MOD, 4), p % 16)
    }

    method Seek(to: nat)
      modifies this
      ensures pos == to
    {
      pos := to;
    }

    method ApplyKeystream(data: array<byte>)
      requires |fullIv| == 16
      modifies this, data
      ensures pos == old(pos) + data.Length
      ensures forall i :: 0 <= i < data.Length ==> data[i] == old(data[i]) ^ StreamByte(old(pos) + i)
    {
      var i := 0;
      while i < data.Length
        invariant 0 <= i <= data.Length && pos == old(pos) + i
        invariant forall j :: 0 <= j < i ==> data[j] == old(data[j]) ^ StreamByte(old(pos) + j)
        invariant forall j :: i <= j < data.Length ==> data[j] == old(data[j])
      {
        data[i] := data[i] ^ StreamByte(pos);
        pos := pos + 1;
        i := i + 1;
      }
    }
  }

  datatype State =
    | Init
    | Alloc(maskedKey: seq<byte>, maskedIv: seq<byte>, keyOtp: Option<seq<byte>>, ivOtp: Option<seq<byte>>)
    | Decode(maskedKey: seq<byte>, maskedIv: seq<byte>, keyOtp: Option<seq<byte>>, ivOtp: Option<seq<byte>>)
    | Ready(key: Option<seq<byte>>, iv: Option<seq<byte>>)
    | Error

  datatype AesError = WrongState | KeyNotSet | WrongRole | NonceLength

  /**
   * The local decrypter of the record layer. A VM reference is represented by the bytes it
   * denotes; only the leader ever reads them, and only by removing its own pad.
   */
  class AesCtr {
    const role: Role
    const k: Key
    var keyRef: Option<seq<byte>>
    var ivRef: Option<seq<byte>>
    var state: State

    constructor (role: Role, k: Key)
      ensures this.role == role && this.k == k
      ensures keyRef == None && ivRef == None && state == Init && Valid()
    {
      this.role := role;
      this.k := k;
      keyRef := None;
      ivRef := None;
      state := Init;
    }

    /** What each pad hides, and what the leader holds once it is removed. */
    ghost predicate Valid()
      reads this
    {
      && (keyRef.Some? ==> keyRef.value == k.key)
      && (ivRef.Some? ==> ivRef.value == k.iv)
      && (role == Leader ==>
            match state
            case Alloc(mk, mi, ko, io) => Hides(mk, ko, k.key) && Hides(mi, io, k.iv)
            case Decode(mk, mi, ko, io) => Hides(mk, ko, k.key) && Hides(mi, io, k.iv)
            case Ready(key, iv) => key == Some(k.key) && iv == Some(k.iv)
            case _ => true)
    }

    static ghost predicate Hides(masked: seq<byte>, otp: Option<seq<byte>>, secret: seq<byte>) {
      otp.Some? && masked == XorInto(secret, otp.value)
    }

    method SetKey()
      requires Valid()
      modifies this
      ensures Valid() && keyRef == Some(k.key) && ivRef == Some(k.iv) && state == old(state)
    {
      keyRef, ivRef := Some(k.key), Some(k.iv);
    }

    /** The pads are drawn by the caller; the follower draws none and learns nothing. */
    method Alloc(keyOtp: seq<byte>, ivOtp: seq<byte>) returns (r: Result<(), AesError>)
      requires Valid()
      modifies this
      ensures Valid() && keyRef == old(keyRef) && ivRef == old(ivRef)
      ensures r.Ok? <==> old(state).Init? && keyRef.Some? && ivRef.Some?
      ensures r.Ok? && role == Leader ==> state == State.Alloc(XorInto(k.key, keyOtp), XorInto(k.iv, ivOtp), Some(keyOtp), Some(ivOtp))
      ensures r.Ok? && role == Follower ==> state == State.Alloc(k.key, k.iv, None, None)
      ensures r.Err? ==> state == Error && r.error == if old(state).Init? then KeyNotSet else WrongState
    {
      var was := state;
      state := Error;
      if !was.Init? { return Err(WrongState); }
      if keyRef.None? || ivRef.None? { return Err(KeyNotSet); }
      match role {
        case Leader =>
          state := State.Alloc(XorInto(keyRef.value, keyOtp), XorInto(ivRef.value, ivOtp), Some(keyOtp), Some(ivOtp));
        case Follower =>
          state := State.Alloc(keyRef.value, ivRef.value, None, None);
      }
      return Ok(());
    }

    method DecodeKey() returns (r: Result<(), AesError>)
      requires Valid()
      modifies this
      ensures Valid() && keyRef == old(keyRef) && ivRef == old(ivRef)
      ensures r == (if old(state).Alloc? then Ok(()) else Err(WrongState))
      ensures state == match old(state)
                       case Alloc(mk, mi, ko, io) => Decode(mk, mi, ko, io)
                       case _ => Error
    {
      match state {
        case Alloc(mk, mi, ko, io) =>
          state := Decode(mk, mi, ko, io);
          r := Ok(());
        case _ =>
          state := Error;
          r := Err(WrongState);
      }
    }

    method FinishDecode() returns (r: Result<(), AesError>)
      requires Valid()
      modifies this
      ensures Valid() && keyRef == old(keyRef) && ivRef == old(ivRef)
      ensures r == (if old(state).Decode? then Ok(()) else Err(WrongState))
      ensures state == if !old(state).Decode? then Error
                       else if role == Leader then Ready(Some(k.key), Some(k.iv)) else Ready(None, None)
    {
      match state {
        case Decode(mk, mi, ko, io) =>
          if role == Leader {
            XorCancels(k.key, ko.value);
            XorCancels(k.iv, io.value);
            state := Ready(Some(XorInto(mk, ko.value)), Some(XorInto(mi, io.value)));
          } else {
            state := Ready(None, None);
          }
          r := Ok(());
        case _ =>
          state := Error;
          r := Err(WrongState);
      }
    }

    /** Decrypts a record with the stream seeked past its first two blocks. */
    method Decrypt(explicitNonce: seq<byte>, ciphertext: seq<byte>) returns (r: Result<seq<byte>, AesError>)
      requires Valid()
      ensures r.Ok? <==> state.Ready? && role == Leader && |explicitNonce| == 8
      ensures r.Ok? ==> r.value == Apply(k, explicitNonce, ciphertext)
      ensures r.Err? ==> r.error == if !state.Ready? then WrongState else if role == Follower then WrongRole else NonceLength
    {
      hide SeekableCtr.StreamByte, KeystreamByte;
      if !state.Ready? { return Err(WrongState); }
      if role == Follower { return Err(WrongRole); }
      if |explicitNonce| != 8 { return Err(NonceLength); }

      var fullIv := state.iv.value + explicitNonce + [0, 0, 0, 0];
      var aes := new SeekableCtr(k.aes, state.key.value, fullIv);
      aes.Seek(32);
      var plaintext := new byte[|ciphertext|](i requires 0 <= i < |ciphertext| => ciphertext[i]);
      aes.ApplyKeystream(plaintext);

      forall i | 0 <= i < |ciphertext|
        ensures aes.StreamByte(32 + i) == KeystreamByte(k, explicitNonce, i)
      {
        StreamMatches(aes, k, explicitNonce, i);
      }
      assert plaintext[..] == Apply(k, explicitNonce, ciphertext);
      return Ok(plaintext[..]);
    }
  }

  /** Byte for byte, the seeked stream is the record's keystream. */
  lemma StreamMatches(aes: SeekableCtr, k: Key, nonce: seq<byte>, i: nat)
    requires |nonce| == 8 && aes.aes == k.aes && aes.key == k.key && aes.fullIv == k.iv + nonce + [0, 0, 0, 0]
    ensures aes.StreamByte(32 + i) == KeystreamByte(k, nonce, i)
  {
    hide Be, FromBe;
    assert aes.fullIv[..12] == k.iv + nonce && aes.fullIv[12..] == [0, 0, 0, 0];
    SeekMatchesCounter(i);
    ZeroCounter();
  }

  lemma ZeroCounter()
    ensures FromBe([0, 0, 0, 0]) == 0
  {
    var one: seq<byte>, two: seq<byte>, three: seq<byte> := [0], [0, 0], [0, 0, 0];
    assert FromBe(one) == 0 by { assert one[..0] == []; }
    assert FromBe(two) == 0 by { assert two[..1] == one; }
    assert FromBe(three) == 0 by { assert three[..2] == two; }
    var four: seq<byte> := [0, 0, 0, 0];
    assert four[..3] == three;
  }

  /** Seeking 32 bytes into a stream that counts from 0 is starting it at counter 2. */
  lemma SeekMatchesCounter(i: nat)
    ensures (32 + i) / 16 == START_CTR + i / 16 && (32 + i) % 16 == i % 16
  {
  }
}
