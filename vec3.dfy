/**
 * Model of `src/vec3.rs`: a three-component vector with component-wise
 * arithmetic, scalar and `Time` broadcast, integer powers and a norm.
 *
 * Components are `real`; division requires non-zero divisors where IEEE
 * arithmetic would produce infinities or NaN.
 */
module Vectors {
  import Times

  /** `f64::powi` for a non-negative exponent: `b` multiplied by itself `n` times. */
  function Pow(b: real, n: nat): real {
    if n == 0 then 1.0 else b * Pow(b, n - 1)
  }

  /** A power of a non-zero base is non-zero. */
  lemma {:induction false} PowNonZero(b: real, n: nat)
    requires b != 0.0
    ensures Pow(b, n) != 0.0
  {
    if n != 0 {
      PowNonZero(b, n - 1);
      var q := Pow(b, n - 1);
      assert b * q != 0.0;
    }
  }

  /** `f64::powi` for any `i32` exponent; a negative exponent inverts the positive power. */
  function PowI(b: real, n: int): (r: real)
    requires n >= 0 || b != 0.0
    ensures n < 0 ==> r * Pow(b, -n) == 1.0
    ensures n >= 0 ==> r == Pow(b, n)
  {
    if n >= 0 then Pow(b, n)
    else
      PowNonZero(b, -n);
      1.0 / Pow(b, -n)
  }

  /** The square is the product of the base with itself. */
  lemma PowTwo(b: real)
    ensures Pow(b, 2) == b * b
  {
    assert Pow(b, 1) == b;
  }

  /** `b * r == (b * p) * q` whenever `r == p * q`. */
  lemma MulAssoc(b: real, r: real, p: real, q: real)
    requires r == p * q
    ensures b * r == (b * p) * q
  {
  }

  lemma {:induction false} PowAdd(b: real, m: nat, n: nat)
    ensures Pow(b, m + n) == Pow(b, m) * Pow(b, n)
    decreases m
  {
    if m != 0 {
      PowAdd(b, m - 1, n);
      MulAssoc(b, Pow(b, (m - 1) + n), Pow(b, m - 1), Pow(b, n));
      assert m + n - 1 == (m - 1) + n;
    }
  }

  /** An even power ignores the sign of its base. */
  lemma {:induction false} PowNegEven(b: real, n: nat)
    requires n % 2 == 0
    ensures Pow(-b, n) == Pow(b, n)
    decreases n
  {
    if n != 0 {
      PowNegEven(b, n - 2);
      var q := Pow(b, n - 2);
      calc {
        Pow(-b, n);
        (-b) * Pow(-b, n - 1);
        (-b) * ((-b) * Pow(-b, n - 2));
        (-b) * ((-b) * q);
        b * (b * q);
        b * Pow(b, n - 1);
        Pow(b, n);
      }
    }
  }

  /** A point or displacement in space. */
  datatype Vec3 = Vec3(x: real, y: real, z: real) {

    /** No component is zero: the vector is a valid divisor. */
    predicate NonZero() {
      x != 0.0 && y != 0.0 && z != 0.0
    }

    /** `impl Add for Vec3`. */
    function Add(rhs: Vec3): (v: Vec3)
      ensures v.Sub(rhs) == this
    {
      Vec3(x + rhs.x, y + rhs.y, z + rhs.z)
    }

    /** `impl Sub for Vec3`. */
    function Sub(rhs: Vec3): (v: Vec3)
      ensures v == Zero() <==> this == rhs
    {
      Vec3(x - rhs.x, y - rhs.y, z - rhs.z)
    }

    /** `impl Mul for Vec3`: the component-wise product. */
    function Mul(rhs: Vec3): Vec3 {
      Vec3(x * rhs.x, y * rhs.y, z * rhs.z)
    }

    /** `impl Div for Vec3`: the component-wise quotient. */
    function Div(rhs: Vec3): Vec3
      requires rhs.NonZero()
    {
      Vec3(x / rhs.x, y / rhs.y, z / rhs.z)
    }

    /** `impl Neg for Vec3`. */
    function Neg(): (v: Vec3)
      ensures Add(v) == Zero()
    {
      Vec3(-x, -y, -z)
    }

    /** `impl Mul<f64> for Vec3`: the scalar is broadcast to every component. */
    function Scale(s: real): Vec3 {
      Vec3(x * s, y * s, z * s)
    }

    /** `impl Div<f64> for Vec3`: the scalar is broadcast to every component. */
    function DivScalar(s: real): (v: Vec3)
      requires s != 0.0
      ensures v == Div(Splat(s))
    {
      Vec3(x / s, y / s, z / s)
    }

    /** `impl Mul<Time> for Vec3`: multiplication on the basis of seconds. */
    function MulTime(t: Times.Time): (v: Vec3)
      ensures v == Mul(Splat(t.Seconds()))
    {
      Scale(t.Seconds())
    }

    /** `Vec3::powi`: each component raised to the `i32` power `n`. */
    function Powi(n: int): (v: Vec3)
      requires n >= 0 || NonZero()
      ensures n == 0 ==> v == One()
      ensures n == 1 ==> v == this
      ensures n == 2 ==> v == Mul(this)
    {
      var v := Vec3(PowI(x, n), PowI(y, n), PowI(z, n));
      assert n == 1 ==> v == this by {
        if n == 1 {
          assert Pow(x, 1) == x && Pow(y, 1) == y && Pow(z, 1) == z;
        }
      }
      assert n == 2 ==> v == Mul(this) by {
        if n == 2 {
          PowTwo(x); PowTwo(y); PowTwo(z);
        }
      }
      v
    }

    /** `Vec3::norm`, with the square root supplied by the caller. */
    function Norm(sqrt: real -> real): (r: real)
      requires IsSqrt(sqrt)
      ensures r >= 0.0
      ensures r * r == x * x + y * y + z * z
    {
      PowTwo(x); PowTwo(y); PowTwo(z);
      assert x * x + y * y + z * z >= 0.0;
      sqrt(Pow(x, 2) + Pow(y, 2) + Pow(z, 2))
    }

    /** `impl AddAssign for Vec3`: updates x, y and z in turn; the result is the updated value. */
    method AddAssign(rhs: Vec3) returns (updated: Vec3)
      ensures updated == Add(rhs)
    {
      updated := this;
      updated := updated.(x := updated.x + rhs.x);
      updated := updated.(y := updated.y + rhs.y);
      updated := updated.(z := updated.z + rhs.z);
    }

    /** `impl SubAssign for Vec3`. */
    method SubAssign(rhs: Vec3) returns (updated: Vec3)
      ensures updated == Sub(rhs)
    {
      updated := this;
      updated := updated.(x := updated.x - rhs.x);
      updated := updated.(y := updated.y - rhs.y);
      updated := updated.(z := updated.z - rhs.z);
    }

    /** `impl MulAssign for Vec3`. */
    method MulAssign(rhs: Vec3) returns (updated: Vec3)
      ensures updated == Mul(rhs)
    {
      updated := this;
      updated := updated.(x := updated.x * rhs.x);
      updated := updated.(y := updated.y * rhs.y);
      updated := updated.(z := updated.z * rhs.z);
    }

    /** `impl DivAssign for Vec3`. */
    method DivAssign(rhs: Vec3) returns (updated: Vec3)
      requires rhs.NonZero()
      ensures updated == Div(rhs)
    {
      updated := this;
      updated := updated.(x := updated.x / rhs.x);
      updated := updated.(y := updated.y / rhs.y);
      updated := updated.(z := updated.z / rhs.z);
    }

    /** `impl SubAssign<f64> for Vec3`: the scalar is subtracted from every component. */
    method SubAssignScalar(s: real) returns (updated: Vec3)
      ensures updated == Sub(Splat(s))
    {
      updated := this;
      updated := updated.(x := updated.x - s);
      updated := updated.(y := updated.y - s);
      updated := updated.(z := updated.z - s);
    }
  }

  /** `Vec3::zero`. */
  function Zero(): Vec3 {
    Vec3(0.0, 0.0, 0.0)
  }

  /** `Vec3::one`. */
  function One(): Vec3 {
    Vec3(1.0, 1.0, 1.0)
  }

  /** The vector with every component equal to `s` (the broadcast of a scalar). */
  function Splat(s: real): Vec3 {
    Vec3(s, s, s)
  }

  /** `sqrt` returns the non-negative square root of every non-negative number. */
  ghost predicate IsSqrt(sqrt: real -> real) {
    && sqrt(0.0) == 0.0
    && forall a :: a >= 0.0 ==> sqrt(a) >= 0.0 && sqrt(a) * sqrt(a) == a
  }

  /** Zero is the identity of addition and one the identity of multiplication. */
  lemma Identities(v: Vec3)
    ensures v.Add(Zero()) == v && v.Sub(Zero()) == v
    ensures v.Mul(One()) == v && v.Powi(1) == v
    ensures v.Powi(0) == One()
  {
  }

  /** Subtraction undoes addition and negation is an involution. */
  lemma AddSubNegInverse(a: Vec3, b: Vec3)
    ensures a.Add(b).Sub(b) == a
    ensures a.Neg().Neg() == a
    ensures a.Sub(b) == a.Add(b.Neg())
  {
  }

  /** Multiplication by a scalar is multiplication by its broadcast. */
  lemma ScaleIsMulSplat(a: Vec3, s: real)
    ensures a.Scale(s) == a.Mul(Splat(s))
  {
  }

  /** Division by a non-zero vector undoes multiplication by it. */
  lemma MulDivInverse(a: Vec3, b: Vec3)
    requires b.NonZero()
    ensures a.Mul(b).Div(b) == a
  {
  }

  /** Division by a non-zero scalar and multiplication by it undo each other. */
  lemma ScaleDivScalarInverse(a: Vec3, s: real)
    requires s != 0.0
    ensures a.Scale(s).DivScalar(s) == a
    ensures a.DivScalar(s).Scale(s) == a
  {
    ScaleDivCancel(a.x, s);
    ScaleDivCancel(a.y, s);
    ScaleDivCancel(a.z, s);
  }

  lemma ScaleDivCancel(c: real, s: real)
    requires s != 0.0
    ensures (c * s) / s == c && (c / s) * s == c
  {
  }

  /** A quotient is the vector of ones exactly when dividend and divisor are equal. */
  lemma DivIsOneIff(a: Vec3, b: Vec3)
    requires b.NonZero()
    ensures a.Div(b) == One() <==> a == b
  {
  }

  /** The worked example of `Mul<Time>`: (1, 2, -3) times 100 ms is (0.1, 0.2, -0.3). */
  lemma MulTimeExample()
    ensures Vec3(1.0, 2.0, -3.0).MulTime(Times.FromMilliseconds(100.0)) == Vec3(0.1, 0.2, -0.3)
  {
  }

  /** A non-negative power of a vector is the power of each component. */
  lemma PowiOfNat(v: Vec3, n: nat)
    ensures v.Powi(n) == Vec3(Pow(v.x, n), Pow(v.y, n), Pow(v.z, n))
  {
  }

  /** The component-wise form of `PowAdd`. */
  lemma PowAddComponents(v: Vec3, m: nat, n: nat)
    ensures Vec3(Pow(v.x, m + n), Pow(v.y, m + n), Pow(v.z, m + n))
         == Vec3(Pow(v.x, m), Pow(v.y, m), Pow(v.z, m)).Mul(Vec3(Pow(v.x, n), Pow(v.y, n), Pow(v.z, n)))
  {
    PowAdd(v.x, m, n);
    PowAdd(v.y, m, n);
    PowAdd(v.z, m, n);
    MulOfProducts(Vec3(Pow(v.x, m + n), Pow(v.y, m + n), Pow(v.z, m + n)),
                  Vec3(Pow(v.x, m), Pow(v.y, m), Pow(v.z, m)),
                  Vec3(Pow(v.x, n), Pow(v.y, n), Pow(v.z, n)));
  }

  lemma MulOfProducts(a: Vec3, b: Vec3, c: Vec3)
    requires a.x == b.x * c.x && a.y == b.y * c.y && a.z == b.z * c.z
    ensures a == b.Mul(c)
  {
  }

  /** Powers of a vector multiply component-wise: `v^(m+n) == v^m * v^n`. */
  lemma PowiAdd(v: Vec3, m: nat, n: nat)
    ensures v.Powi(m + n) == v.Powi(m).Mul(v.Powi(n))
  {
    PowiOfNat(v, m + n);
    PowiOfNat(v, m);
    PowiOfNat(v, n);
    PowAddComponents(v, m, n);
  }

  /** An even power of a vector ignores the sign of every component. */
  lemma PowiNegEven(v: Vec3, n: nat)
    requires n % 2 == 0
    ensures v.Neg().Powi(n) == v.Powi(n)
  {
    PowiOfNat(v.Neg(), n);
    PowiOfNat(v, n);
    PowNegEven(v.x, n);
    PowNegEven(v.y, n);
    PowNegEven(v.z, n);
  }

  /** The zero vector has norm zero. */
  lemma NormOfZero(sqrt: real -> real)
    requires IsSqrt(sqrt)
    ensures Zero().Norm(sqrt) == 0.0
  {
  }
}
