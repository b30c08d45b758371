/**
 * The key exchange: two parties holding curve points derive additive shares of the x-coordinate
 * of their sum, twice, and a circuit combines and compares the two.
 */
module KeyExchange {
  import opened Bytes
  import opened Parties
  import opened PrimeField

  /** The P-256 prime, 2^256 - 2^224 + 2^192 + 2^96 - 1. */
  const P256: nat := 0xFFFFFFFF00000001000000000000000000000000FFFFFFFFFFFFFFFFFFFFFFFF

  /** How many numbers 32 bytes can spell. */
  const BYTES32: nat := 0x1_0000_0000_0000_0000_0000_0000_0000_0000_0000_0000_0000_0000_0000_0000_0000_0000

  datatype Point = Point(x: nat, y: nat)

  datatype KeyError = Identity | OutOfRange | ZeroInverse | WrongState | NoServerKey | WrongRole | PmsMismatch

  predicate OnField(p: nat, q: Point) {
    Elem(p, q.x) && Elem(p, q.y)
  }

  // ---- Section 2.2.1 of SEC 1: the sum of two points with distinct x-coordinates ----

  function Slope(p: nat, a: Point, b: Point): nat
    requires p > 0
  {
    Mul(p, Sub(p, b.y, a.y), Inverse(p, Sub(p, b.x, a.x)))
  }

  function SumX(p: nat, a: Point, b: Point): nat
    requires p > 0
  {
    var s := Slope(p, a, b);
    Sub(p, Sub(p, Mul(p, s, s), a.x), b.x)
  }

  // ---- Decoding a point ----

  method ReverseInPlace(a: array<byte>)
    modifies a
    ensures forall i :: 0 <= i < a.Length ==> a[i] == old(a[a.Length - 1 - i])
  {
    var n, i := a.Length, 0;
    while i < n / 2
      invariant 0 <= i <= n / 2
      invariant forall k :: 0 <= k < i || n - i <= k < n ==> a[k] == old(a[n - 1 - k])
      invariant forall k :: i <= k < n - i ==> a[k] == old(a[k])
    {
      a[i], a[n - 1 - i] := a[n - 1 - i], a[i];
      i := i + 1;
    }
  }

  /** The number little-endian bytes spell. */
  function FromLe(b: seq<byte>): nat {
    if b == [] then 0 else b[0] as nat + 256 * FromLe(b[1..])
  }

  lemma {:induction false} ReversedIsBe(b: seq<byte>, r: seq<byte>)
    requires |r| == |b| && forall i :: 0 <= i < |b| ==> r[i] == b[|b| - 1 - i]
    ensures FromLe(r) == FromBe(b)
    decreases |b|
  {
    if b != [] {
      ReversedIsBe(b[..|b| - 1], r[1..]);
    }
  }

  /** Big-endian coordinates, reversed and read as little-endian field elements. */
  method DecomposePoint(p: nat, x: Option<seq<byte>>, y: Option<seq<byte>>) returns (r: Result<Point, KeyError>)
    ensures r.Ok? <==> x.Some? && y.Some? && FromBe(x.value) < p && FromBe(y.value) < p
    ensures r.Ok? ==> r.value == Point(FromBe(x.value), FromBe(y.value)) && OnField(p, r.value)
  {
    if x.None? || y.None? { return Err(Identity); }
    var xs := new byte[|x.value|](i requires 0 <= i < |x.value| => x.value[i]);
    var ys := new byte[|y.value|](i requires 0 <= i < |y.value| => y.value[i]);
    ReverseInPlace(xs);
    ReverseInPlace(ys);
    ReversedIsBe(x.value, xs[..]);
    ReversedIsBe(y.value, ys[..]);
    var px, py := FromLe(xs[..]), FromLe(ys[..]);
    if px >= p || py >= p { return Err(OutOfRange); }
    return Ok(Point(px, py));
  }

  // ---- Deriving a share ----

  /** What this party's side of a converter answers: shares of the sum of inputs as a product, and back. */
  datatype Converter = Converter(toMultiplicative: (nat, nat) -> (nat, nat), toAdditive: nat -> nat)

  /** The follower negates its coordinates, so that the parties' inputs sum to differences. */
  function Inputs(p: nat, role: Role, q: Point): (nat, nat)
    requires p > 0
  {
    match role
    case Leader => (q.y, q.x)
    case Follower => (Neg(p, q.y), Neg(p, q.x))
  }

  /** The square of this party's share of the slope. */
  function Squared(p: nat, a: nat, b: nat): nat
    requires p > 0
  {
    var c := Mul(p, a, Inverse(p, b));
    Mul(p, c, c)
  }

  method DeriveXCoordShare(p: nat, role: Role, q: Point, converter: Converter) returns (r: Result<nat, KeyError>)
    requires p > 0
    ensures var (a, b) := converter.toMultiplicative(Inputs(p, role, q).0, Inputs(p, role, q).1);
      && (r.Ok? <==> b != 0)
      && (r.Ok? ==> r.value == Sub(p, converter.toAdditive(Squared(p, a, b)), q.x))
  {
    var (in0, in1) := if role.Leader? then (q.y, q.x) else (Neg(p, q.y), Neg(p, q.x));
    var (a, b) := converter.toMultiplicative(in0, in1);
    if b == 0 { return Err(ZeroInverse); }
    var c := Mul(p, a, Inverse(p, b));
    c := Mul(p, c, c);
    var d := converter.toAdditive(c);
    return Ok(Add(p, d, Neg(p, q.x)));
  }

  /** Both ends of one converter, on the inputs of this run: a product for a sum, a sum for a product. */
  predicate Converts(p: nat, l: Converter, f: Converter, lq: Point, fq: Point)
    requires p > 0
  {
    var (ly, lx) := Inputs(p, Leader, lq);
    var (fy, fx) := Inputs(p, Follower, fq);
    var (la, lb) := l.toMultiplicative(ly, lx);
    var (fa, fb) := f.toMultiplicative(fy, fx);
    var lc, fc := Squared(p, la, lb), Squared(p, fa, fb);
    && Elem(p, la) && Elem(p, lb) && Elem(p, fa) && Elem(p, fb)
    && Mul(p, la, fa) == Add(p, ly, fy) && Mul(p, lb, fb) == Add(p, lx, fx)
    && Add(p, l.toAdditive(lc), f.toAdditive(fc)) == Mul(p, lc, fc)
  }

  /** The product of the parties' squared ratios is the square of the slope. */
  lemma SquaresMultiply(p: nat, la: nat, lb: nat, fa: nat, fb: nat)
    requires IsPrime(p) && Elem(p, la) && Elem(p, lb) && Elem(p, fa) && Elem(p, fb)
    requires lb != 0 && fb != 0 && Mul(p, lb, fb) != 0
    ensures var s := Mul(p, Mul(p, la, fa), Inverse(p, Mul(p, lb, fb)));
      Mul(p, Squared(p, la, lb), Squared(p, fa, fb)) == Mul(p, s, s)
  {
    hide Mul, Inverse;
    var lc, fc := Mul(p, la, Inverse(p, lb)), Mul(p, fa, Inverse(p, fb));
    MulSwap(p, lc, lc, fc, fc);
    MulSwap(p, la, Inverse(p, lb), fa, Inverse(p, fb));
    InverseOfProduct(p, lb, fb);
  }

  /** Neither share of a non-zero product is zero, so the inversion cannot fail. */
  lemma SharesNonZero(p: nat, x: nat, y: nat)
    requires p > 0 && Mul(p, x, y) != 0
    ensures x != 0 && y != 0
  {
    MulZero(p, x);
    MulZero(p, y);
  }

  /** Distinct residues have a non-zero difference. */
  lemma DifferenceNonZero(p: nat, x: nat, y: nat)
    requires p > 0 && Elem(p, x) && Elem(p, y) && x != y
    ensures Add(p, x, Neg(p, y)) != 0
  {
    hide Add, Neg;
    AddBack(p, x, y);
    SmallMod(p, y);
  }

  lemma SmallMod(p: nat, x: nat)
    requires Elem(p, x) && p > 0
    ensures Add(p, 0, x) == x && Add(p, x, 0) == x
  {
    QuotientUnique(x, 0, x, p);
  }

  lemma NegIs(p: nat, y: nat)
    requires p > 0 && Elem(p, y)
    ensures Add(p, Neg(p, y), y) == 0 == Add(p, y, Neg(p, y))
  {
    AddMod(p, 0 as int - y as int, y);
    QuotientUnique(0, 0, 0, p);
  }

  lemma AddBack(p: nat, x: nat, y: nat)
    requires p > 0 && Elem(p, x) && Elem(p, y)
    ensures Add(p, Add(p, x, Neg(p, y)), y) == x
  {
    hide Add, Neg;
    AddAssoc(p, x, Neg(p, y), y);
    NegIs(p, y);
    SmallMod(p, x);
  }

  /** Sums of differences can be regrouped: (d - x) + (e - y) == ((d + e) - y) - x. */
  lemma RegroupSum(p: nat, d: nat, e: nat, x: nat, y: nat)
    requires p > 0
    ensures Add(p, Sub(p, d, x), Sub(p, e, y)) == Sub(p, Sub(p, Add(p, d, e), y), x)
  {
    hide Add, Neg;
    var nx, ny := Neg(p, x), Neg(p, y);
    AddAssoc(p, d, nx, Add(p, e, ny));
    AddComm(p, nx, Add(p, e, ny));
    AddAssoc(p, d, Add(p, e, ny), nx);
    AddAssoc(p, d, e, ny);
  }

  /**
   * Two-party point addition. For any prime field and any two points with distinct
   * x-coordinates, over a correct converter both derivations succeed and the shares sum to the
   * x-coordinate of the sum of the points.
   */
  lemma SharesSumToX(p: nat, l: Converter, f: Converter, lq: Point, fq: Point)
    requires IsPrime(p) && OnField(p, lq) && OnField(p, fq) && lq.x != fq.x
    requires Converts(p, l, f, lq, fq)
    ensures var (la, lb) := l.toMultiplicative(Inputs(p, Leader, lq).0, Inputs(p, Leader, lq).1);
      var (fa, fb) := f.toMultiplicative(Inputs(p, Follower, fq).0, Inputs(p, Follower, fq).1);
      && lb != 0 && fb != 0
      && Add(p, Sub(p, l.toAdditive(Squared(p, la, lb)), lq.x), Sub(p, f.toAdditive(Squared(p, fa, fb)), fq.x)) == SumX(p, fq, lq)
  {
    hide Add, Neg, Mul, Inverse, Squared;
    var (la, lb) := l.toMultiplicative(Inputs(p, Leader, lq).0, Inputs(p, Leader, lq).1);
    var (fa, fb) := f.toMultiplicative(Inputs(p, Follower, fq).0, Inputs(p, Follower, fq).1);
    DifferenceNonZero(p, lq.x, fq.x);
    SharesNonZero(p, lb, fb);
    SquaresMultiply(p, la, lb, fa, fb);
    RegroupSum(p, l.toAdditive(Squared(p, la, lb)), f.toAdditive(Squared(p, fa, fb)), lq.x, fq.x);
  }

  // ---- The circuit ----

  const WIDTH: nat := 32

  /** A field element as 32 big-endian bytes. */
  function Encode(n: nat): (r: seq<byte>)
    ensures |r| == 32
  {
    Be(n, WIDTH)
  }

  lemma EncodeRoundTrip(n: nat)
    requires n < BYTES32
    ensures FromBe(Encode(n)) == n
  {
    hide Be, FromBe, Pow256;
    P256Fits();
    BeRoundTrip(n, WIDTH);
  }

  /** Big-endian modular addition of 32-byte numbers. */
  function AddModBytes(p: nat, a: seq<byte>, b: seq<byte>): (r: seq<byte>)
    requires p > 0
    ensures |r| == 32
  {
    Encode(Add(p, FromBe(a), FromBe(b)))
  }

  /** Two sums, and their bytewise XOR. */
  function PmsCircuit(p: nat, a0: seq<byte>, b0: seq<byte>, a1: seq<byte>, b1: seq<byte>): (seq<byte>, seq<byte>, seq<byte>)
    requires p > 0
  {
    var pms0, pms1 := AddModBytes(p, a0, b0), AddModBytes(p, a1, b1);
    (pms0, pms1, XorInto(pms0, pms1))
  }

  lemma XorZeroWhenEqual(a: seq<byte>, b: seq<byte>)
    requires |a| == |b|
    ensures XorInto(a, b) == Zeros(|a|) <==> a == b
  {
    forall i | 0 <= i < |a|
      ensures XorInto(a, b)[i] == 0 <==> a[i] == b[i]
    {
      XorZero(a[i], b[i]);
    }
    if XorInto(a, b) == Zeros(|a|) {
      forall i | 0 <= i < |a|
        ensures a[i] == b[i]
      {
        assert XorInto(a, b)[i] == Zeros(|a|)[i];
      }
    }
  }

  lemma XorZero(x: byte, y: byte)
    ensures x ^ y == 0 <==> x == y
  {
  }

  /** The share of the x-coordinate a party derives over a converter. */
  function ShareOf(p: nat, role: Role, q: Point, c: Converter): nat
    requires p > 0
  {
    var (in0, in1) := Inputs(p, role, q);
    var (a, b) := c.toMultiplicative(in0, in1);
    Sub(p, c.toAdditive(Squared(p, a, b)), q.x)
  }

  /** The party's multiplicative share of the difference of the x-coordinates is not zero. */
  predicate Invertible(p: nat, role: Role, q: Point, c: Converter)
    requires p > 0
  {
    c.toMultiplicative(Inputs(p, role, q).0, Inputs(p, role, q).1).1 != 0
  }

  // ---- The state machine ----

  datatype State =
    | Initialized
    | Setup
    | FollowerKey(followerKey: Point)
    | ComputedECShares(pms0: nat, pms1: nat)
    | EqualityCheck
    | Complete
    | Error

  /** A curve group; None is the identity, which is no public key. */
  datatype Curve = Curve(
    add: (Option<Point>, Option<Point>) -> Option<Point>,
    mul: (nat, Option<Point>) -> Option<Point>,
    generator: Option<Point>)

  /** How a party marks a circuit input: it knows it, or it is blind to it. */
  datatype InputMark = Private | Blind

  /** The four circuit inputs a0, b0, a1, b1 as one party treats them. */
  datatype Quad<T> = Quad(a0: T, b0: T, a1: T, b1: T)

  class MpcKeyExchange {
    const role: Role
    const p: nat
    const curve: Curve
    const secret: nat
    const publicKey: Point
    var state: State
    var serverKey: Option<Point>

    constructor (role: Role, p: nat, curve: Curve, secret: nat)
      requires curve.mul(secret, curve.generator).Some?
      ensures this.role == role && this.p == p && this.curve == curve && this.secret == secret
      ensures Some(publicKey) == curve.mul(secret, curve.generator) && state.Initialized? && serverKey.None?
    {
      this.role := role;
      this.p := p;
      this.curve := curve;
      this.secret := secret;
      publicKey := curve.mul(secret, curve.generator).value;
      state, serverKey := Initialized, None;
    }

    /** The marks this party gives the circuit inputs: the leader knows the `a`, the follower the `b`. */
    method Alloc() returns (r: Result<Quad<InputMark>, KeyError>)
      modifies this`state
      ensures r.Ok? <==> old(state).Initialized?
      ensures r.Ok? ==> r.value == if role.Leader? then Quad(Private, Blind, Private, Blind) else Quad(Blind, Private, Blind, Private)
      ensures state == if r.Ok? then Setup else Error
    {
      var was := state;
      state := Error;
      if !was.Initialized? { return Err(WrongState); }
      state := Setup;
      match role {
        case Leader => return Ok(Quad(Private, Blind, Private, Blind));
        case Follower => return Ok(Quad(Blind, Private, Blind, Private));
      }
    }

    /** Accepted in any state; the last key counts. */
    method SetServerKey(key: Point)
      modifies this`serverKey
      ensures serverKey == Some(key)
    {
      serverKey := Some(key);
    }

    /** `received`: the follower's public key, which the follower sends and the leader receives. */
    method SetUp(received: Point) returns (r: Result<Option<Point>, KeyError>)
      modifies this`state
      ensures r.Ok? <==> old(state).Setup?
      ensures r.Ok? ==> r.value == (if role.Follower? then Some(publicKey) else None)
      ensures state == if r.Ok? then FollowerKey(if role.Leader? then received else publicKey) else Error
    {
      var was := state;
      state := Error;
      if !was.Setup? { return Err(WrongState); }
      match role {
        case Leader =>
          state := FollowerKey(received);
          return Ok(None);
        case Follower =>
          state := FollowerKey(publicKey);
          return Ok(Some(publicKey));
      }
    }

    /** The sum of both public keys. Only the leader may ask, and only before shares are computed. */
    method ClientKey() returns (r: Result<Point, KeyError>)
      ensures r.Ok? <==> role.Leader? && state.FollowerKey? && curve.add(Some(publicKey), Some(state.followerKey)).Some?
      ensures r.Ok? ==> Some(r.value) == curve.add(Some(publicKey), Some(state.followerKey))
    {
      if !role.Leader? { return Err(WrongRole); }
      match state {
        case FollowerKey(key) =>
          var sum := curve.add(Some(publicKey), Some(key));
          if sum.None? { return Err(Identity); }
          return Ok(sum.value);
        case _ => return Err(WrongState);
      }
    }

    /** Both converters work on the same point: this party's secret times the server key. */
    method ComputeShares(converter0: Converter, converter1: Converter) returns (r: Result<(), KeyError>)
      requires p > 0
      modifies this`state
      ensures r.Ok? <==>
        && old(state).FollowerKey? && serverKey.Some? && curve.mul(secret, serverKey).Some?
        && Invertible(p, role, curve.mul(secret, serverKey).value, converter0)
        && Invertible(p, role, curve.mul(secret, serverKey).value, converter1)
      ensures r.Ok? ==>
        var shared := curve.mul(secret, serverKey).value;
        state == ComputedECShares(ShareOf(p, role, shared, converter0), ShareOf(p, role, shared, converter1))
    {
      var was := state;
      state := Error;
      if !was.FollowerKey? { return Err(WrongState); }
      if serverKey.None? { return Err(NoServerKey); }
      var product := curve.mul(secret, serverKey);
      if product.None? { return Err(Identity); }
      var shared := product.value;
      var pms0 := DeriveXCoordShare(p, role, shared, converter0);
      if pms0.Err? { return Err(pms0.error); }
      var pms1 := DeriveXCoordShare(p, role, shared, converter1);
      if pms1.Err? { return Err(pms1.error); }
      state := ComputedECShares(pms0.value, pms1.value);
      return Ok(());
    }

    /** What this party assigns to the circuit inputs; all four are committed, the other party's blind. */
    method Assign() returns (r: Result<Quad<Option<seq<byte>>>, KeyError>)
      modifies this`state
      ensures r.Ok? <==> old(state).ComputedECShares?
      ensures r.Ok? ==>
        var share0, share1 := Some(Encode(old(state).pms0)), Some(Encode(old(state).pms1));
        r.value == if role.Leader? then Quad(share0, None, share1, None) else Quad(None, share0, None, share1)
      ensures state == if r.Ok? then EqualityCheck else Error
    {
      var was := state;
      state := Error;
      if !was.ComputedECShares? { return Err(WrongState); }
      state := EqualityCheck;
      var share0, share1 := Some(Encode(was.pms0)), Some(Encode(was.pms1));
      match role {
        case Leader => return Ok(Quad(share0, None, share1, None));
        case Follower => return Ok(Quad(None, share0, None, share1));
      }
    }

    /** `eq`: the circuit's third output, decoded. */
    method Finalize(eq: seq<byte>) returns (r: Result<(), KeyError>)
      modifies this`state
      ensures r.Ok? <==> old(state).EqualityCheck? && eq == Zeros(32)
      ensures state == if r.Ok? then Complete else Error
    {
      var was := state;
      state := Error;
      if !was.EqualityCheck? { return Err(WrongState); }
      if eq != Zeros(32) { return Err(PmsMismatch); }
      state := Complete;
      return Ok(());
    }
  }

  // ---- Both parties ----

  /** The comparison finalize makes succeeds exactly when the two pre-master secrets are equal. */
  lemma EqualityMeans(p: nat, a0: seq<byte>, b0: seq<byte>, a1: seq<byte>, b1: seq<byte>)
    requires p > 0
    ensures var (pms0, pms1, eq) := PmsCircuit(p, a0, b0, a1, b1); eq == Zeros(32) <==> pms0 == pms1
  {
    XorZeroWhenEqual(AddModBytes(p, a0, b0), AddModBytes(p, a1, b1));
  }

  /** Through the circuit, one converter's shares give the x-coordinate of the sum as bytes. */
  lemma CircuitGivesX(p: nat, l: Converter, f: Converter, lq: Point, fq: Point)
    requires IsPrime(p) && p <= BYTES32 && OnField(p, lq) && OnField(p, fq) && lq.x != fq.x
    requires Converts(p, l, f, lq, fq)
    ensures AddModBytes(p, Encode(ShareOf(p, Leader, lq, l)), Encode(ShareOf(p, Follower, fq, f))) == Encode(SumX(p, fq, lq))
  {
    hide Add, Neg, Mul, Inverse, Squared, Encode, FromBe, SumX;
    SharesSumToX(p, l, f, lq, fq);
    EncodeRoundTrip(ShareOf(p, Leader, lq, l));
    EncodeRoundTrip(ShareOf(p, Follower, fq, f));
  }

  /** What the circuit outputs when each party assigns its two encoded shares. */
  function JointPms(p: nat, lq: Point, fq: Point, l0: Converter, f0: Converter, l1: Converter, f1: Converter): (seq<byte>, seq<byte>, seq<byte>)
    requires p > 0
  {
    PmsCircuit(p, Encode(ShareOf(p, Leader, lq, l0)), Encode(ShareOf(p, Follower, fq, f0)),
               Encode(ShareOf(p, Leader, lq, l1)), Encode(ShareOf(p, Follower, fq, f1)))
  }

  /**
   * An honest run passes the equality check: both converter instances reconstruct the same
   * pre-master secret, the big-endian x-coordinate of the sum of the parties' points.
   */
  lemma HonestRunPasses(p: nat, l0: Converter, f0: Converter, l1: Converter, f1: Converter, lq: Point, fq: Point)
    requires IsPrime(p) && p <= BYTES32 && OnField(p, lq) && OnField(p, fq) && lq.x != fq.x
    requires Converts(p, l0, f0, lq, fq) && Converts(p, l1, f1, lq, fq)
    ensures var (pms0, pms1, eq) := JointPms(p, lq, fq, l0, f0, l1, f1);
      pms0 == pms1 == Encode(SumX(p, fq, lq)) && eq == Zeros(32)
  {
    hide Add, Neg, Mul, Inverse, Squared, Encode, FromBe, SumX, ShareOf, Converts, AddModBytes;
    CircuitGivesX(p, l0, f0, lq, fq);
    CircuitGivesX(p, l1, f1, lq, fq);
    XorZeroWhenEqual(Encode(SumX(p, fq, lq)), Encode(SumX(p, fq, lq)));
  }

  // ---- Diffie-Hellman ----

  /** What the protocol uses of the group: multiples distribute and commute, sums commute. */
  ghost predicate GroupLaws(c: Curve) {
    && (forall n: nat, q: Option<Point>, r: Option<Point> :: c.mul(n, c.add(q, r)) == c.add(c.mul(n, q), c.mul(n, r)))
    && (forall m: nat, n: nat, q: Option<Point> :: c.mul(m, c.mul(n, q)) == c.mul(n, c.mul(m, q)))
    && (forall q: Option<Point>, r: Option<Point> :: c.add(q, r) == c.add(r, q))
  }

  /** Sums of two affine points with distinct x-coordinates are the ones of section 2.2.1 of SEC 1. */
  ghost predicate ChordRule(p: nat, c: Curve)
    requires p > 0
  {
    forall q: Point, r: Point :: OnField(p, q) && OnField(p, r) && q.x != r.x ==>
      c.add(Some(q), Some(r)).Some? && c.add(Some(q), Some(r)).value.x == SumX(p, q, r)
  }

  /** The parties' products with the server key sum to the server's product with the client key. */
  lemma ProductsSum(c: Curve, leader: nat, follower: nat, server: nat)
    requires GroupLaws(c)
    ensures var serverKey := c.mul(server, c.generator);
      c.mul(server, c.add(c.mul(leader, c.generator), c.mul(follower, c.generator)))
      == c.add(c.mul(follower, serverKey), c.mul(leader, serverKey))
  {
    var l, f := c.mul(leader, c.generator), c.mul(follower, c.generator);
    assert c.mul(server, c.add(l, f)) == c.add(c.mul(server, l), c.mul(server, f));
    assert c.mul(server, l) == c.mul(leader, c.mul(server, c.generator));
    assert c.mul(server, f) == c.mul(follower, c.mul(server, c.generator));
  }

  /**
   * The key exchange agrees with the server. With `client` the sum of the parties' public keys,
   * the server computes its secret times `client`; the pre-master secret the parties reconstruct
   * from their converted shares is that point's x-coordinate.
   */
  lemma PmsIsDiffieHellman(p: nat, c: Curve, leader: nat, follower: nat, server: nat, lq: Point, fq: Point,
                           l0: Converter, f0: Converter, l1: Converter, f1: Converter)
    requires IsPrime(p) && p <= BYTES32 && GroupLaws(c) && ChordRule(p, c)
    requires Some(lq) == c.mul(leader, c.mul(server, c.generator)) && Some(fq) == c.mul(follower, c.mul(server, c.generator))
    requires OnField(p, lq) && OnField(p, fq) && lq.x != fq.x
    requires Converts(p, l0, f0, lq, fq) && Converts(p, l1, f1, lq, fq)
    ensures var client := c.add(c.mul(leader, c.generator), c.mul(follower, c.generator));
      var (pms0, pms1, eq) := JointPms(p, lq, fq, l0, f0, l1, f1);
      && c.mul(server, client).Some?
      && pms0 == pms1 == Encode(c.mul(server, client).value.x) && eq == Zeros(32)
  {
    hide Add, Neg, Mul, Inverse, Squared, Encode, FromBe, SumX, ShareOf, Converts, AddModBytes, IsPrime, GroupLaws;
    ProductsSum(c, leader, follower, server);
    HonestRunPasses(p, l0, f0, l1, f1, lq, fq);
    assert c.add(Some(fq), Some(lq)).Some? && c.add(Some(fq), Some(lq)).value.x == SumX(p, fq, lq);
  }

  /** The bound is 256^32, and the field of the curve fits it. */
  lemma P256Fits()
    ensures 0 < P256 <= BYTES32 == Pow256(32)
  {
    assert Pow256(8) == 0x1_0000_0000_0000_0000;
    assert Pow256(16) == 0x1_0000_0000_0000_0000 * Pow256(8);
    assert Pow256(24) == 0x1_0000_0000_0000_0000 * Pow256(16);
    assert Pow256(32) == 0x1_0000_0000_0000_0000 * Pow256(24);
  }
}
