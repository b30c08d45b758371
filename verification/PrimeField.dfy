/** Arithmetic modulo a prime. */
module PrimeField {
  predicate IsFactor(d: nat, p: nat) {
    d > 0 && p % d == 0
  }

  predicate IsPrime(p: nat) {
    p > 1 && forall d: nat :: 1 < d < p ==> !IsFactor(d, p)
  }

  /** A residue. */
  predicate Elem(p: nat, x: nat) {
    x < p
  }

  function Add(p: nat, x: nat, y: nat): (r: nat)
    requires p > 0
    ensures Elem(p, r)
  {
    (x + y) % p
  }

  function Neg(p: nat, x: nat): (r: nat)
    requires p > 0
    ensures Elem(p, r)
  {
    (0 as int - x as int) % p
  }

  function Sub(p: nat, x: nat, y: nat): (r: nat)
    requires p > 0
    ensures Elem(p, r)
  {
    Add(p, x, Neg(p, y))
  }

  function Mul(p: nat, x: nat, y: nat): (r: nat)
    requires p > 0
    ensures Elem(p, r)
  {
    (x * y) % p
  }

  // ---- Congruence ----

  lemma ModPlus(p: nat, k: int, r: int)
    requires p > 0
    ensures (k * p + r) % p == r % p
  {
    var q, m := r / p, r % p;
    assert k * p + r == (k + q) * p + m by {
      assert r == q * p + m;
      Distribute(k, q, p);
    }
    QuotientUnique(k * p + r, k + q, m, p);
  }

  lemma Distribute(a: int, b: int, c: int)
    ensures (a + b) * c == a * c + b * c
  {
  }

  lemma QuotientUnique(n: int, q: int, m: int, p: nat)
    requires p > 0 && 0 <= m < p && n == q * p + m
    ensures n % p == m
  {
    var q', m' := n / p, n % p;
    assert n == q' * p + m';
    var k := q - q';
    assert k * p == m' - m by {
      Distribute(q, -q', p);
    }
    assert (-k) * p == -(k * p);
    if k >= 1 {
      MultipleAtLeast(k, p);
    } else if k <= -1 {
      MultipleAtLeast(-k, p);
    }
    assert k == 0;
  }

  lemma MultipleAtLeast(k: int, p: nat)
    requires k >= 1
    ensures k * p >= p
  {
  }

  lemma AddMod(p: nat, x: int, y: int)
    requires p > 0
    ensures (x % p + y) % p == (x + y) % p
  {
    DivSplit(p, x);
    ModPlus(p, x / p, x % p + y);
    assert (x / p) * p + (x % p + y) == x + y;
  }

  lemma DivSplit(p: nat, x: int)
    requires p > 0
    ensures x == (x / p) * p + x % p && 0 <= x % p < p
  {
  }

  lemma MulMod(p: nat, x: int, y: int)
    requires p > 0
    ensures ((x % p) * y) % p == (x * y) % p
  {
    var q, m := x / p, x % p;
    DivSplit(p, x);
    assert x * y == (q * y) * p + m * y by {
      Distribute(q * p, m, y);
      assert (q * p) * y == (q * y) * p;
    }
    ModPlus(p, q * y, m * y);
  }

  // ---- Laws ----

  function Residue(p: nat, n: nat): nat
    requires p > 0
  {
    n % p
  }

  lemma AddLeft(p: nat, x: nat, y: nat, z: nat)
    requires p > 0
    ensures Add(p, Add(p, x, y), z) == Residue(p, x + y + z)
  {
    AddMod(p, x + y, z);
  }

  lemma AddAssoc(p: nat, x: nat, y: nat, z: nat)
    requires p > 0
    ensures Add(p, Add(p, x, y), z) == Add(p, x, Add(p, y, z))
  {
    hide Add, Residue;
    AddLeft(p, x, y, z);
    AddLeft(p, y, z, x);
    AddComm(p, x, Add(p, y, z));
    assert x + y + z == y + z + x;
  }

  lemma AddComm(p: nat, x: nat, y: nat)
    requires p > 0
    ensures Add(p, x, y) == Add(p, y, x)
  {
  }

  lemma MulComm(p: nat, x: nat, y: nat)
    requires p > 0
    ensures Mul(p, x, y) == Mul(p, y, x)
  {
    assert x * y == y * x;
  }

  lemma MulAssoc(p: nat, x: nat, y: nat, z: nat)
    requires p > 0
    ensures Mul(p, Mul(p, x, y), z) == Mul(p, x, Mul(p, y, z))
  {
    MulMod(p, x * y, z);
    MulMod(p, y * z, x);
    Regroup(x, y, z);
    assert x * (y * z) == (y * z) * x;
    assert x * ((y * z) % p) == ((y * z) % p) * x;
  }

  /** Products of products can be regrouped. */
  lemma MulSwap(p: nat, a: nat, b: nat, c: nat, d: nat)
    requires p > 0
    ensures Mul(p, Mul(p, a, b), Mul(p, c, d)) == Mul(p, Mul(p, a, c), Mul(p, b, d))
  {
    hide Mul;
    var cd, bd := Mul(p, c, d), Mul(p, b, d);
    MulAssoc(p, a, b, cd);
    MulAssoc(p, b, c, d);
    MulComm(p, b, c);
    MulAssoc(p, c, b, d);
    MulAssoc(p, a, c, bd);
  }

  lemma MulOne(p: nat, x: nat)
    requires p > 1 && Elem(p, x)
    ensures Mul(p, 1, x) == x
  {
    assert 1 * x == x;
  }

  // ---- Inverses ----

  /** Coefficients for a pair from those for the pair after one division. */
  function Back(q: nat, e: (int, int, nat)): (int, int, nat) {
    (e.1, e.0 - e.1 * q, e.2)
  }

  /** Extended Euclid: the coefficients, and the last non-zero remainder. */
  function Euclid(a: nat, b: nat): (int, int, nat)
    decreases b
  {
    if b == 0 then (1, 0, a) else Back(a / b, Euclid(b, a % b))
  }

  /** The coefficients combine the pair to the remainder. */
  predicate Combines(e: (int, int, nat), a: nat, b: nat) {
    e.0 * a + e.1 * b == e.2
  }

  lemma {:induction false} EuclidBezout(a: nat, b: nat)
    ensures Combines(Euclid(a, b), a, b)
    decreases b
  {
    hide Back, Combines;
    if b == 0 {
      assert Combines((1, 0, a), a, b) by { CombinesSelf(a, b); }
    } else {
      EuclidBezout(b, a % b);
      DivSplit(b, a);
      BackBezout(a, b, a / b, a % b, Euclid(b, a % b));
    }
  }

  lemma CombinesSelf(a: nat, b: nat)
    ensures Combines((1, 0, a), a, b)
  {
  }

  lemma BackBezout(a: nat, b: nat, q: nat, m: nat, e: (int, int, nat))
    requires a == q * b + m && Combines(e, b, m)
    ensures Combines(Back(q, e), a, b)
  {
    var s, t := e.0, e.1;
    Expand(t, q * b, m);
    Distribute(s, -(t * q), b);
    Regroup(t, q, b);
    assert (-(t * q)) * b == -((t * q) * b);
  }

  lemma Expand(t: int, x: int, y: int)
    ensures t * (x + y) == t * x + t * y
  {
  }

  lemma Regroup(x: int, y: int, z: int)
    ensures x * (y * z) == (x * y) * z
  {
  }

  ghost predicate Divides(d: nat, n: nat) {
    exists k: nat :: n == k * d
  }

  lemma {:induction false} EuclidDivides(a: nat, b: nat)
    ensures Divides(Euclid(a, b).2, a) && Divides(Euclid(a, b).2, b)
    decreases b
  {
    if b == 0 {
      assert a == 1 * a && 0 == 0 * a;
    } else {
      EuclidDivides(b, a % b);
      DivSplit(b, a);
      DividesSum(Euclid(b, a % b).2, b, a % b, a / b);
    }
  }

  lemma DividesSum(g: nat, b: nat, m: nat, q: nat)
    requires Divides(g, b) && Divides(g, m)
    ensures Divides(g, q * b + m)
  {
    var j: nat :| b == j * g;
    var k: nat :| m == k * g;
    Regroup(q, j, g);
    Distribute(q * j, k, g);
    var n: nat := q * j + k;
    assert q * b + m == n * g;
  }

  lemma NonZeroFactors(k: nat, g: nat)
    requires k * g > 0
    ensures k >= 1 && g >= 1
  {
  }

  /** A prime has no common divisor with a smaller non-zero number but one. */
  lemma PrimeIsCoprime(p: nat, x: nat)
    requires IsPrime(p) && 0 < x < p
    ensures Euclid(p, x).2 == 1
  {
    EuclidDivides(p, x);
    var g := Euclid(p, x).2;
    var k: nat :| x == k * g;
    var j: nat :| p == j * g;
    NonZeroFactors(k, g);
    MultipleAtLeast(k, g);
    if g > 1 {
      QuotientUnique(p, j, 0, g);
      assert IsFactor(g, p);
    }
  }

  function Inverse(p: nat, x: nat): (r: nat)
    requires p > 0
    ensures Elem(p, r)
  {
    Euclid(p, x).1 % p
  }

  lemma InverseIs(p: nat, x: nat)
    requires IsPrime(p) && 0 < x < p
    ensures Mul(p, x, Inverse(p, x)) == 1
  {
    EuclidBezout(p, x);
    PrimeIsCoprime(p, x);
    var s, t := Euclid(p, x).0, Euclid(p, x).1;
    MulMod(p, t, x);
    assert (t % p) * x == x * (t % p);
    ModPlus(p, s, t * x);
    QuotientUnique(1, 0, 1, p);
  }

  /** Inverses multiply. */
  lemma InverseOfProduct(p: nat, x: nat, y: nat)
    requires IsPrime(p) && 0 < x < p && 0 < y < p && Mul(p, x, y) != 0
    ensures Mul(p, Inverse(p, x), Inverse(p, y)) == Inverse(p, Mul(p, x, y))
  {
    hide Mul, Inverse;
    var xy, ix, iy := Mul(p, x, y), Inverse(p, x), Inverse(p, y);
    var u, v := Mul(p, ix, iy), Inverse(p, xy);
    InverseIs(p, x);
    InverseIs(p, y);
    InverseIs(p, xy);
    MulSwap(p, x, y, ix, iy);
    MulOne(p, 1);
    // xy * u == 1 and xy * v == 1, so u == u * (xy * v) == (u * xy) * v == v.
    MulComm(p, xy, u);
    MulAssoc(p, u, xy, v);
    MulOne(p, v);
    MulOne(p, u);
    MulComm(p, u, 1);
  }

  /** A product with a zero factor is zero. */
  lemma MulZero(p: nat, x: nat)
    requires p > 0
    ensures Mul(p, 0, x) == 0 && Mul(p, x, 0) == 0
  {
    assert 0 * x == 0 && x * 0 == 0;
  }
}
