/**
 * Model of `src/time.rs`: a simulation time stored as seconds.
 *
 * The source keeps an `f64`; here the quantity is a `real`, so every unit
 * conversion is an exact scaling and the round trips hold exactly.
 * The picosecond and femtosecond factors are kept as the source writes them:
 * `FromFemtoseconds` divides by 10^12 and `FromPicoseconds` by 10^15, which is
 * the reverse of their names (see `FemtosecondIsThousandPicoseconds`).
 */
module Times {

  /** A time value; the canonical unit is the second. */
  datatype Time = Time(seconds: real) {

    /** `Time::seconds`. */
    function Seconds(): (s: real)
      ensures FromSeconds(s) == this
    {
      seconds
    }

    function Milliseconds(): (ms: real)
      ensures FromMilliseconds(ms) == this
    {
      seconds * 1000.0
    }

    function Microseconds(): (us: real)
      ensures FromMicroseconds(us) == this
    {
      seconds * 1000000.0
    }

    function Nanoseconds(): (ns: real)
      ensures FromNanoseconds(ns) == this
    {
      seconds * 1000000000.0
    }

    /** Multiplies by 10^12, as written in the source. */
    function Femtoseconds(): (fs: real)
      ensures FromFemtoseconds(fs) == this
    {
      seconds * 1000000000000.0
    }

    /** Multiplies by 10^15, as written in the source. */
    function Picoseconds(): (ps: real)
      ensures FromPicoseconds(ps) == this
    {
      seconds * 1000000000000000.0
    }

    /** `impl Add for Time`. */
    function Add(rhs: Time): (t: Time)
      ensures t.Sub(rhs) == this
      ensures Le(this, t) <==> rhs.seconds >= 0.0
    {
      FromSeconds(seconds + rhs.seconds)
    }

    /** `impl Sub for Time`. */
    function Sub(rhs: Time): (t: Time)
      ensures t.seconds + rhs.seconds == seconds
      ensures Le(t, this) <==> rhs.seconds >= 0.0
    {
      FromSeconds(seconds - rhs.seconds)
    }

    /** `impl Mul for Time`: the product of the underlying seconds. */
    function Mul(rhs: Time): (t: Time)
      ensures rhs.seconds != 0.0 ==> t.seconds / rhs.seconds == seconds
      ensures rhs.seconds == 0.0 ==> t == Zero()
      ensures t.seconds == 0.0 <==> seconds == 0.0 || rhs.seconds == 0.0
    {
      FromSeconds(seconds * rhs.seconds)
    }

    /** `impl Div for Time`: the quotient of the underlying seconds; IEEE division by zero is not modelled. */
    function Div(rhs: Time): (t: Time)
      requires rhs.seconds != 0.0
      ensures t.seconds * rhs.seconds == seconds
    {
      FromSeconds(seconds / rhs.seconds)
    }

    /** `impl AddAssign for Time`: `self.seconds += rhs.seconds`; the result is the updated value. */
    method AddAssign(rhs: Time) returns (updated: Time)
      ensures updated == Add(rhs)
    {
      updated := this;
      updated := updated.(seconds := updated.seconds + rhs.seconds);
    }

    /** `impl SubAssign for Time`. */
    method SubAssign(rhs: Time) returns (updated: Time)
      ensures updated == Sub(rhs)
    {
      updated := this;
      updated := updated.(seconds := updated.seconds - rhs.seconds);
    }

    /** `impl MulAssign for Time`. */
    method MulAssign(rhs: Time) returns (updated: Time)
      ensures updated == Mul(rhs)
    {
      updated := this;
      updated := updated.(seconds := updated.seconds * rhs.seconds);
    }

    /** `impl DivAssign for Time`. */
    method DivAssign(rhs: Time) returns (updated: Time)
      requires rhs.seconds != 0.0
      ensures updated == Div(rhs)
    {
      updated := this;
      updated := updated.(seconds := updated.seconds / rhs.seconds);
    }
  }

  /** `Time::zero`. */
  function Zero(): (t: Time)
    ensures t.Seconds() == 0.0
    ensures forall u: Time :: u.Add(t) == u
  {
    Time(0.0)
  }

  /** `Time::from_seconds`. */
  function FromSeconds(s: real): (t: Time)
    ensures t.seconds == s
  {
    Time(s)
  }

  function FromMilliseconds(millis: real): (t: Time)
    ensures t.seconds * 1000.0 == millis
  {
    FromSeconds(millis / 1000.0)
  }

  function FromMicroseconds(micros: real): (t: Time)
    ensures t.seconds * 1000000.0 == micros
  {
    FromSeconds(micros / 1000000.0)
  }

  function FromNanoseconds(nanos: real): (t: Time)
    ensures t.seconds * 1000000000.0 == nanos
  {
    FromSeconds(nanos / 1000000000.0)
  }

  /** Divides by 10^12, as written in the source. */
  function FromFemtoseconds(femtos: real): (t: Time)
    ensures t.seconds * 1000000000000.0 == femtos
  {
    FromSeconds(femtos / 1000000000000.0)
  }

  /** Divides by 10^15, as written in the source. */
  function FromPicoseconds(picos: real): (t: Time)
    ensures t.seconds * 1000000000000000.0 == picos
  {
    FromSeconds(picos / 1000000000000000.0)
  }

  /** The derived `PartialOrd`: `a < b`. */
  predicate Lt(a: Time, b: Time) {
    a.seconds < b.seconds
  }

  /** The derived `PartialOrd`: `a <= b`. */
  predicate Le(a: Time, b: Time) {
    a.seconds <= b.seconds
  }

  /** Over reals the derived ordering is total and agrees with equality. */
  lemma OrderIsTotal(a: Time, b: Time)
    ensures Lt(a, b) || a == b || Lt(b, a)
    ensures Le(a, b) <==> Lt(a, b) || a == b
  {
  }

  /** Each unit constructor inverts its getter. */
  lemma UnitRoundTrips(v: real)
    ensures FromSeconds(v).Seconds() == v
    ensures FromMilliseconds(v).Milliseconds() == v
    ensures FromMicroseconds(v).Microseconds() == v
    ensures FromNanoseconds(v).Nanoseconds() == v
    ensures FromPicoseconds(v).Picoseconds() == v
    ensures FromFemtoseconds(v).Femtoseconds() == v
  {
  }

  /** The factors of the two smallest units are swapped relative to their names:
      one "femtosecond" is a thousand "picoseconds". */
  lemma FemtosecondIsThousandPicoseconds(v: real)
    ensures FromFemtoseconds(v) == FromPicoseconds(1000.0 * v)
    ensures FromFemtoseconds(1.0).Seconds() == 0.000000000001
  {
  }

  /** Addition is addition of seconds, and subtraction undoes it. */
  lemma AddSubInverse(a: Time, b: Time)
    ensures a.Add(b).Seconds() == a.Seconds() + b.Seconds()
    ensures a.Add(b).Sub(b) == a
    ensures a.Add(b) == b.Add(a)
  {
  }
}
