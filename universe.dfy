/**
 * Model of `src/universe.rs`: particles, the Lennard-Jones pair term and the
 * `Universe` state machine whose `step` runs a predictor loop, a force loop
 * over a snapshot of the predicted positions, and a per-axis boundary wrap,
 * then advances the clock and the iteration counter.
 *
 * Quantities are `real`. Where IEEE arithmetic would divide by zero (a zero
 * separation component, a zero mass, a zero boundary extent) the model asks
 * for a non-zero divisor instead; see `CanStep`.
 */
module Universes {
  import Times
  import opened Vectors

  /** A point mass: position (m), velocity (m/s), acceleration (m/s^2) and mass (kg).
      `Particle::new` is this constructor. */
  datatype Particle = Particle(pos: Vec3, vel: Vec3, acc: Vec3, mass: real)

  /** Depth of the potential well. */
  const Epsilon: real := 1.0
  /** Distance at which the potential crosses zero. */
  const Sigma: real := 1.0

  // ---------------------------------------------------------------------
  // Lennard-Jones pair term
  // ---------------------------------------------------------------------

  /** `4 * epsilon * ((sigma / c)^12 - (sigma / c)^6)` for one coordinate `c`. */
  function LennardJonesScalar(c: real): real
    requires c != 0.0
  {
    4.0 * Epsilon * (Pow(Sigma / c, 12) - Pow(Sigma / c, 6))
  }

  /** `lennard_jones`, with `sigma / r` and the powers taken component by component. */
  function LennardJones(r: Vec3): Vec3
    requires r.NonZero()
  {
    var sigmaOverR := One().Scale(Sigma).Div(r);
    sigmaOverR.Powi(12).Sub(sigmaOverR.Powi(6)).Scale(4.0).Scale(Epsilon)
  }

  /** The vector form applies the scalar potential formula to each component of `r` separately. */
  lemma LennardJonesIsComponentwise(r: Vec3)
    requires r.NonZero()
    ensures LennardJones(r) == Vec3(LennardJonesScalar(r.x), LennardJonesScalar(r.y), LennardJonesScalar(r.z))
  {
  }

  lemma DivNeg(s: real, c: real)
    requires c != 0.0
    ensures s / (-c) == -(s / c)
  {
  }

  lemma LennardJonesScalarEven(c: real)
    requires c != 0.0
    ensures LennardJonesScalar(-c) == LennardJonesScalar(c)
  {
    DivNeg(Sigma, c);
    PowNegEven(Sigma / c, 12);
    PowNegEven(Sigma / c, 6);
  }

  /** The pair term is even in `r` (it only uses the powers 12 and 6), so it
      does not flip sign when the two particles are exchanged. */
  lemma LennardJonesEven(r: Vec3)
    requires r.NonZero()
    ensures LennardJones(r.Neg()) == LennardJones(r)
  {
    LennardJonesIsComponentwise(r);
    LennardJonesIsComponentwise(r.Neg());
    LennardJonesScalarEven(r.x);
    LennardJonesScalarEven(r.y);
    LennardJonesScalarEven(r.z);
  }

  // ---------------------------------------------------------------------
  // Force accumulation
  // ---------------------------------------------------------------------

  /** Every two distinct positions differ in every coordinate, so that every
      pair separation is a valid argument of `LennardJones`. */
  predicate Separated(positions: seq<Vec3>) {
    forall a, b :: 0 <= a < |positions| && 0 <= b < |positions| && a != b ==>
      positions[a].Sub(positions[b]).NonZero()
  }

  /** The force contributed to a particle at `p` by one at `q`: `-lennard_jones(p - q)`. */
  function PairForce(p: Vec3, q: Vec3): Vec3
    requires p.Sub(q).NonZero()
  {
    LennardJones(p.Sub(q)).Neg()
  }

  /** The force on particle `i` after the inner loop has visited the first `j`
      entries of the position snapshot, skipping `i` itself. */
  function PartialForce(positions: seq<Vec3>, i: nat, j: nat): Vec3
    requires i < |positions| && j <= |positions| && Separated(positions)
  {
    if j == 0 then Zero()
    else if j - 1 == i then PartialForce(positions, i, j - 1)
    else PartialForce(positions, i, j - 1).Add(PairForce(positions[i], positions[j - 1]))
  }

  /** The total force on particle `i`: the sum over every other particle. */
  function NetForce(positions: seq<Vec3>, i: nat): Vec3
    requires i < |positions| && Separated(positions)
  {
    PartialForce(positions, i, |positions|)
  }

  /** `p` differs in every coordinate from every position in `others`. */
  predicate SeparatedFrom(p: Vec3, others: seq<Vec3>) {
    forall k :: 0 <= k < |others| ==> p.Sub(others[k]).NonZero()
  }

  /** The inner loop of `step`: accumulates `-lennard_jones(pos - other)` over
      every entry of the snapshot except the particle's own. */
  method ForceOn(positions: seq<Vec3>, index: nat) returns (force: Vec3)
    requires index < |positions| && Separated(positions)
    ensures force == NetForce(positions, index)
  {
    force := Zero();
    var other := 0;
    while other < |positions|
      invariant 0 <= other <= |positions|
      invariant force == PartialForce(positions, index, other)
    {
      if index != other {
        var r := positions[index].Sub(positions[other]);
        force := force.AddAssign(LennardJones(r).Neg());
      }
      other := other + 1;
    }
  }

  /** Reference definition: the pair forces on `p` from every position in `others`, in order. */
  function SumOfPairForces(p: Vec3, others: seq<Vec3>): Vec3
    requires SeparatedFrom(p, others)
  {
    if others == [] then Zero()
    else SumOfPairForces(p, others[..|others| - 1]).Add(PairForce(p, others[|others| - 1]))
  }

  /** The first `j` positions with index `i` left out. */
  function Without(positions: seq<Vec3>, i: nat, j: nat): seq<Vec3>
    requires i < |positions| && j <= |positions|
  {
    if j <= i then positions[..j] else positions[..i] + positions[i + 1..j]
  }

  lemma WithoutSeparated(positions: seq<Vec3>, i: nat, j: nat)
    requires i < |positions| && j <= |positions| && Separated(positions)
    ensures SeparatedFrom(positions[i], Without(positions, i, j))
  {
    var w := Without(positions, i, j);
    forall k | 0 <= k < |w|
      ensures positions[i].Sub(w[k]).NonZero()
    {
      if j <= i || k < i {
        assert w[k] == positions[k];
      } else {
        assert w[k] == positions[k + 1];
      }
    }
  }

  /** Extending the visited prefix by one entry adds that entry unless it is `i` itself. */
  lemma WithoutStep(positions: seq<Vec3>, i: nat, j: nat)
    requires i < |positions| && 0 < j <= |positions|
    ensures j - 1 == i ==> Without(positions, i, j) == Without(positions, i, j - 1)
    ensures j - 1 != i ==> Without(positions, i, j) == Without(positions, i, j - 1) + [positions[j - 1]]
  {
    if j - 1 > i {
      assert positions[i + 1..j] == positions[i + 1..j - 1] + [positions[j - 1]];
    } else if j - 1 < i {
      assert positions[..j] == positions[..j - 1] + [positions[j - 1]];
    }
  }

  lemma {:induction false} PartialForceIsSumWithout(positions: seq<Vec3>, i: nat, j: nat)
    requires i < |positions| && j <= |positions| && Separated(positions)
    ensures SeparatedFrom(positions[i], Without(positions, i, j))
    ensures PartialForce(positions, i, j) == SumOfPairForces(positions[i], Without(positions, i, j))
    decreases j
  {
    WithoutSeparated(positions, i, j);
    if j > 0 {
      PartialForceIsSumWithout(positions, i, j - 1);
      WithoutStep(positions, i, j);
      if j - 1 != i {
        var w := Without(positions, i, j);
        assert w[..|w| - 1] == Without(positions, i, j - 1);
      }
    }
  }

  /** The force on particle `i` is the sum over all OTHER particles: the self pair is excluded. */
  lemma NetForceExcludesSelf(positions: seq<Vec3>, i: nat)
    requires i < |positions| && Separated(positions)
    ensures SeparatedFrom(positions[i], positions[..i] + positions[i + 1..])
    ensures NetForce(positions, i) == SumOfPairForces(positions[i], positions[..i] + positions[i + 1..])
  {
    PartialForceIsSumWithout(positions, i, |positions|);
    assert Without(positions, i, |positions|) == positions[..i] + positions[i + 1..];
  }

  /** With two particles each feels the same force: the pair term is symmetric,
      not antisymmetric, because `lennard_jones` is even. */
  lemma TwoBodyForcesAreEqual(p: Vec3, q: Vec3)
    requires Separated([p, q])
    ensures NetForce([p, q], 0) == NetForce([p, q], 1) == PairForce(p, q)
  {
    var positions := [p, q];
    assert positions[0].Sub(positions[1]).NonZero();
    assert PartialForce(positions, 0, 1) == Zero();
    assert PartialForce(positions, 1, 1) == PartialForce(positions, 1, 0).Add(PairForce(q, p));
    assert q.Sub(p) == p.Sub(q).Neg();
    LennardJonesEven(p.Sub(q));
  }

  // ---------------------------------------------------------------------
  // Boundary wrap
  // ---------------------------------------------------------------------

  function Abs(a: real): real {
    if a < 0.0 then -a else a
  }

  lemma MulMono(m: real, u: real, v: real)
    requires m > 0.0 && u <= v
    ensures m * u <= m * v
  {
  }

  lemma DivMul(a: real, m: real)
    requires m != 0.0
    ensures m * (a / m) == a
  {
  }

  /** With `m * q == a` and `f` the floor of `q`, `a - m * f` lies in `[0, m)`. */
  lemma FloorRemainder(a: real, m: real, q: real, f: int)
    requires a >= 0.0 && m > 0.0 && m * q == a && f as real <= q < f as real + 1.0
    ensures 0.0 <= a - m * (f as real) < m
  {
    MulMono(m, f as real, q);
    MulMono(m, q, f as real + 1.0);
    assert m * (f as real + 1.0) == m * (f as real) + m;
  }

  /** With `m * q == a`, `a >= 0` and `m > 0`, the quotient `q` is non-negative,
      and below one when `a < m`. */
  lemma SmallQuotient(a: real, m: real, q: real)
    requires 0.0 <= a && 0.0 < m && m * q == a
    ensures 0.0 <= q
    ensures a < m ==> q < 1.0
  {
    if a < m && q >= 1.0 {
      MulMono(m, 1.0, q);
    } else if q < 0.0 {
      MulMono(m, q, 0.0);
    }
  }

  /** `k` whole copies of `b`: two reals are congruent modulo `b` when they differ by one of these. */
  function Multiple(k: int, b: real): real {
    (k as real) * b
  }

  /** `a` modulo `m` for `a >= 0` and `m > 0`. */
  function FloorRem(a: real, m: real): (r: real)
    requires a >= 0.0 && m > 0.0
    ensures 0.0 <= r < m
    ensures a < m ==> r == a
    ensures a - r == Multiple((a / m).Floor, m)
  {
    DivMul(a, m);
    FloorRemainder(a, m, a / m, (a / m).Floor);
    SmallQuotient(a, m, a / m);
    a - m * ((a / m).Floor as real)
  }

  /** Rust's `%` on `f64`: the remainder of truncated division, which takes the
      sign of the dividend and has magnitude `|x| mod |b|`. */
  function TruncRem(x: real, b: real): (r: real)
    requires b != 0.0
    ensures Abs(r) < Abs(b)
    ensures x >= 0.0 ==> r >= 0.0
    ensures x <= 0.0 ==> r <= 0.0
    ensures Abs(x) < Abs(b) ==> r == x
    ensures exists k: int :: x - r == Multiple(k, b)
  {
    var a := Abs(x);
    var rem := FloorRem(a, Abs(b));
    SignedMultiple(x, b, rem, (a / Abs(b)).Floor);
    if x >= 0.0 then rem else -rem
  }

  /** Giving the remainder of `|x|` by `|b|` the sign of `x` keeps it a whole
      number of copies of `b` away from `x`. */
  lemma SignedMultiple(x: real, b: real, rem: real, q: int)
    requires b != 0.0 && Abs(x) - rem == Multiple(q, Abs(b))
    ensures x - (if x >= 0.0 then rem else -rem) == Multiple(if (x >= 0.0) == (b > 0.0) then q else -q, b)
  {
  }

  /** One axis of the wrap: a coordinate outside `[-b/2, b/2]` is replaced by `coord % b`. */
  function WrapCoord(c: real, b: real): (r: real)
    requires b != 0.0
    ensures -b / 2.0 <= c <= b / 2.0 ==> r == c
    ensures Abs(r) <= Abs(c)
    ensures (r > 0.0 ==> c > 0.0) && (r < 0.0 ==> c < 0.0)
    ensures r != c ==> Abs(r) < Abs(b)
    ensures c < -b / 2.0 || c > b / 2.0 ==> Abs(r) < Abs(b)
    ensures exists k: int :: c - r == Multiple(k, b)
  {
    if c < -b / 2.0 || c > b / 2.0 then TruncRem(c, b)
    else
      assert c - c == Multiple(0, b);
      c
  }

  /** The wrap applied to the three axes independently. */
  function WrapPosition(pos: Vec3, bound: Vec3): Vec3
    requires bound.NonZero()
  {
    Vec3(WrapCoord(pos.x, bound.x), WrapCoord(pos.y, bound.y), WrapCoord(pos.z, bound.z))
  }

  /** Wrapping twice is wrapping once: a wrapped coordinate that is still
      outside `[-b/2, b/2]` is already below `|b|`, so `%` leaves it alone. */
  lemma WrapCoordIdempotent(c: real, b: real)
    requires b != 0.0
    ensures WrapCoord(WrapCoord(c, b), b) == WrapCoord(c, b)
  {
  }

  /** The wrap does not always land inside the cell: with `b = 1`, `0.8`
      is outside `[-0.5, 0.5]` and `0.8 % 1 == 0.8`; `1.2` becomes `0.2`. */
  lemma WrapCoordExamples()
    ensures WrapCoord(0.8, 1.0) == 0.8
    ensures WrapCoord(1.2, 1.0) == 0.2
    ensures WrapCoord(-1.2, 1.0) == -0.2
    ensures WrapCoord(0.3, 1.0) == 0.3
  {
    assert (1.2 / 1.0).Floor == 1;
  }

  // ---------------------------------------------------------------------
  // The three stages of `step`, as functions of the particle sequence
  // ---------------------------------------------------------------------

  lemma HalfSquare(a: real, h: real)
    ensures a * h * h * 0.5 == a * (h * h / 2.0)
  {
  }

  /** The predictor's position update, regrouped: `pos + (vel*h + acc*h*h*0.5)`
      is `(pos + vel*h) + acc*(h*h/2)`. */
  lemma PredictedPosition(pos: Vec3, vel: Vec3, acc: Vec3, h: real)
    ensures pos.Add(vel.Scale(h).Add(acc.Scale(h).Scale(h).Scale(0.5)))
         == pos.Add(vel.Scale(h)).Add(acc.Scale(h * h / 2.0))
  {
    HalfSquare(acc.x, h);
    HalfSquare(acc.y, h);
    HalfSquare(acc.z, h);
  }

  /** The predictor's update as the source writes it, with `Time` broadcast,
      is the regrouped update over the seconds of `dt`. */
  lemma PredictorUpdate(pos: Vec3, vel: Vec3, acc: Vec3, dt: Times.Time)
    ensures pos.Add(vel.MulTime(dt).Add(acc.MulTime(dt).MulTime(dt).Scale(0.5)))
         == pos.Add(vel.Scale(dt.seconds)).Add(acc.Scale(dt.seconds * dt.seconds / 2.0))
    ensures vel.Add(acc.MulTime(dt)) == vel.Add(acc.Scale(dt.seconds))
  {
    var h := dt.seconds;
    assert vel.MulTime(dt) == vel.Scale(h);
    assert acc.MulTime(dt) == acc.Scale(h);
    assert acc.Scale(h).MulTime(dt) == acc.Scale(h).Scale(h);
    PredictedPosition(pos, vel, acc, h);
  }

  /** Predictor for one particle: `pos += vel*dt + acc*dt*dt*0.5`, then `vel += acc*dt`,
      both from the acceleration of the previous step. */
  function Predict(p: Particle, dt: Times.Time): (q: Particle)
    ensures q.pos == p.pos.Add(p.vel.Scale(dt.seconds)).Add(p.acc.Scale(dt.seconds * dt.seconds / 2.0))
    ensures q.vel == p.vel.Add(p.acc.Scale(dt.seconds))
    ensures q.acc == p.acc && q.mass == p.mass
  {
    PredictorUpdate(p.pos, p.vel, p.acc, dt);
    p.(pos := p.pos.Add(p.vel.MulTime(dt).Add(p.acc.MulTime(dt).MulTime(dt).Scale(0.5))),
       vel := p.vel.Add(p.acc.MulTime(dt)))
  }

  function Predicted(ps: seq<Particle>, dt: Times.Time): (qs: seq<Particle>)
    ensures |qs| == |ps|
  {
    seq(|ps|, k requires 0 <= k < |ps| => Predict(ps[k], dt))
  }

  /** The snapshot `other_positions`. */
  function Positions(ps: seq<Particle>): (positions: seq<Vec3>)
    ensures |positions| == |ps|
  {
    seq(|ps|, k requires 0 <= k < |ps| => ps[k].pos)
  }

  predicate MassesNonZero(ps: seq<Particle>) {
    forall k :: 0 <= k < |ps| ==> ps[k].mass != 0.0
  }

  /** Force stage: every acceleration becomes the net force on the particle divided by its mass. */
  function Accelerated(ps: seq<Particle>): (qs: seq<Particle>)
    requires Separated(Positions(ps)) && MassesNonZero(ps)
    ensures |qs| == |ps|
  {
    seq(|ps|, k requires 0 <= k < |ps| =>
      ps[k].(acc := NetForce(Positions(ps), k).DivScalar(ps[k].mass)))
  }

  /** Boundary stage: every position is wrapped; nothing else changes. */
  function Wrapped(ps: seq<Particle>, bound: Vec3): (qs: seq<Particle>)
    requires bound.NonZero()
    ensures |qs| == |ps|
  {
    seq(|ps|, k requires 0 <= k < |ps| => ps[k].(pos := WrapPosition(ps[k].pos, bound)))
  }

  /** What one `step` needs over reals: non-zero masses and boundary extents,
      and predicted positions that differ pairwise in every coordinate. */
  predicate CanStep(ps: seq<Particle>, dt: Times.Time, bound: Vec3) {
    && MassesNonZero(ps)
    && bound.NonZero()
    && Separated(Positions(Predicted(ps, dt)))
  }

  /** The particles after one `step`. */
  function StepParticles(ps: seq<Particle>, dt: Times.Time, bound: Vec3): (qs: seq<Particle>)
    requires CanStep(ps, dt, bound)
    ensures |qs| == |ps|
    ensures forall k :: 0 <= k < |ps| ==> qs[k].mass == ps[k].mass
    ensures forall k :: 0 <= k < |ps| ==>
      qs[k].vel == ps[k].vel.Add(ps[k].acc.Scale(dt.seconds))
    ensures forall k :: 0 <= k < |ps| ==>
      qs[k].pos == WrapPosition(Predict(ps[k], dt).pos, bound)
    ensures forall k :: 0 <= k < |ps| ==>
      qs[k].acc == NetForce(Positions(Predicted(ps, dt)), k).DivScalar(ps[k].mass)
  {
    Wrapped(Accelerated(Predicted(ps, dt)), bound)
  }

  /** `n` steps can be taken one after another. */
  predicate CanRun(ps: seq<Particle>, dt: Times.Time, bound: Vec3, n: nat)
    decreases n
  {
    n == 0 || (CanStep(ps, dt, bound) && CanRun(StepParticles(ps, dt, bound), dt, bound, n - 1))
  }

  /** The particles after `n` steps. */
  function Run(ps: seq<Particle>, dt: Times.Time, bound: Vec3, n: nat): seq<Particle>
    requires CanRun(ps, dt, bound, n)
    decreases n
  {
    if n == 0 then ps else Run(StepParticles(ps, dt, bound), dt, bound, n - 1)
  }

  /** Any number of steps keeps the particle count and every particle's mass. */
  lemma {:induction false} RunPreservesMasses(ps: seq<Particle>, dt: Times.Time, bound: Vec3, n: nat)
    requires CanRun(ps, dt, bound, n)
    ensures |Run(ps, dt, bound, n)| == |ps|
    ensures forall k :: 0 <= k < |ps| ==> Run(ps, dt, bound, n)[k].mass == ps[k].mass
    decreases n
  {
    if n > 0 {
      RunPreservesMasses(StepParticles(ps, dt, bound), dt, bound, n - 1);
    }
  }

  // ---------------------------------------------------------------------
  // The universe
  // ---------------------------------------------------------------------

  class Universe {
    var time: Times.Time
    var iteration: nat
    var dt: Times.Time
    var boundary: Vec3
    /** Target temperature in Kelvin; `step` does not use it (the rescale is commented out). */
    var temperature: real
    var particles: seq<Particle>

    /** `Universe::new`. */
    constructor (dt: Times.Time)
      ensures time == Times.Zero() && iteration == 0
      ensures this.dt == dt
      ensures boundary == Vec3(0.00000001, 0.00000001, 0.00000001)
      ensures temperature == 200.0
      ensures particles == []
    {
      time := Times.Zero();
      iteration := 0;
      this.dt := dt;
      boundary := Vec3(0.00000001, 0.00000001, 0.00000001);
      temperature := 200.0;
      particles := [];
    }

    /** The builder method `boundary`: replaces the boundary and nothing else. */
    method SetBoundary(bound: Vec3)
      modifies this
      ensures boundary == bound
      ensures time == old(time) && iteration == old(iteration) && dt == old(dt)
      ensures temperature == old(temperature) && particles == old(particles)
    {
      boundary := bound;
    }

    /** `add_particle`: appends one particle at the end. */
    method AddParticle(p: Particle)
      modifies this
      ensures particles == old(particles) + [p]
      ensures time == old(time) && iteration == old(iteration) && dt == old(dt)
      ensures temperature == old(temperature) && boundary == old(boundary)
    {
      particles := particles + [p];
    }

    /** `add_particles`: appends a slice of particles at the end, in order. */
    method AddParticles(ps: seq<Particle>)
      modifies this
      ensures particles == old(particles) + ps
      ensures time == old(time) && iteration == old(iteration) && dt == old(dt)
      ensures temperature == old(temperature) && boundary == old(boundary)
    {
      particles := particles + ps;
    }

    /** First stage of `step`: each particle is moved and accelerated with its previous acceleration. */
    method Predictor()
      modifies this
      ensures dt == old(dt) && boundary == old(boundary) && temperature == old(temperature)
      ensures time == old(time) && iteration == old(iteration)
      ensures particles == Predicted(old(particles), dt)
    {
      var i := 0;
      while i < |particles|
        invariant 0 <= i <= |particles| == |old(particles)|
        invariant dt == old(dt) && boundary == old(boundary) && temperature == old(temperature)
        invariant time == old(time) && iteration == old(iteration)
        invariant forall k :: 0 <= k < i ==> particles[k] == Predict(old(particles)[k], dt)
        invariant forall k :: i <= k < |particles| ==> particles[k] == old(particles)[k]
      {
        var p := particles[i];
        var pos := p.pos.AddAssign(p.vel.MulTime(dt).Add(p.acc.MulTime(dt).MulTime(dt).Scale(0.5)));
        var vel := p.vel.AddAssign(p.acc.MulTime(dt));
        particles := particles[i := p.(pos := pos, vel := vel)];
        i := i + 1;
      }
    }

    /** Second stage of `step`: forces from a snapshot of the current positions,
        each divided by the particle's mass. */
    method ApplyForces()
      requires Separated(Positions(particles)) && MassesNonZero(particles)
      modifies this
      ensures dt == old(dt) && boundary == old(boundary) && temperature == old(temperature)
      ensures time == old(time) && iteration == old(iteration)
      ensures particles == Accelerated(old(particles))
    {
      var otherPositions := Positions(particles);
      var index := 0;
      while index < |particles|
        invariant 0 <= index <= |particles| == |old(particles)|
        invariant dt == old(dt) && boundary == old(boundary) && temperature == old(temperature)
        invariant time == old(time) && iteration == old(iteration)
        invariant otherPositions == Positions(old(particles))
        invariant forall k :: 0 <= k < index ==> particles[k] == Accelerated(old(particles))[k]
        invariant forall k :: index <= k < |particles| ==> particles[k] == old(particles)[k]
      {
        var force := ForceOn(otherPositions, index);
        var p := particles[index];
        particles := particles[index := p.(acc := force.DivScalar(p.mass))];
        index := index + 1;
      }
    }

    /** Third stage of `step`: every coordinate outside `[-b/2, b/2]` is reduced modulo `b`. */
    method ApplyBoundary()
      requires boundary.NonZero()
      modifies this
      ensures dt == old(dt) && boundary == old(boundary) && temperature == old(temperature)
      ensures time == old(time) && iteration == old(iteration)
      ensures particles == Wrapped(old(particles), boundary)
    {
      var j := 0;
      while j < |particles|
        invariant 0 <= j <= |particles| == |old(particles)|
        invariant dt == old(dt) && boundary == old(boundary) && temperature == old(temperature)
        invariant time == old(time) && iteration == old(iteration)
        invariant forall k :: 0 <= k < j ==> particles[k] == Wrapped(old(particles), boundary)[k]
        invariant forall k :: j <= k < |particles| ==> particles[k] == old(particles)[k]
      {
        var pos := particles[j].pos;
        var bound := boundary;
        if pos.x < -bound.x / 2.0 || pos.x > bound.x / 2.0 {
          pos := pos.(x := TruncRem(pos.x, bound.x));
        }
        if pos.y < -bound.y / 2.0 || pos.y > bound.y / 2.0 {
          pos := pos.(y := TruncRem(pos.y, bound.y));
        }
        if pos.z < -bound.z / 2.0 || pos.z > bound.z / 2.0 {
          pos := pos.(z := TruncRem(pos.z, bound.z));
        }
        particles := particles[j := particles[j].(pos := pos)];
        j := j + 1;
      }
    }

    /** `step`: predictor, forces, boundary wrap, then the clock and the iteration count. */
    method Step()
      requires CanStep(particles, dt, boundary)
      modifies this
      ensures dt == old(dt) && boundary == old(boundary) && temperature == old(temperature)
      ensures particles == StepParticles(old(particles), dt, boundary)
      ensures time == old(time).Add(dt) && iteration == old(iteration) + 1
    {
      Predictor();
      assert MassesNonZero(particles) by {
        forall k | 0 <= k < |particles|
          ensures particles[k].mass != 0.0
        {
          assert particles[k] == Predict(old(particles)[k], dt);
        }
      }
      ApplyForces();
      ApplyBoundary();
      time := time.AddAssign(dt);
      iteration := iteration + 1;
    }

    /** `steps`: `n` steps in succession. */
    method Steps(n: nat)
      requires CanRun(particles, dt, boundary, n)
      modifies this
      ensures dt == old(dt) && boundary == old(boundary) && temperature == old(temperature)
      ensures particles == Run(old(particles), dt, boundary, n)
      ensures iteration == old(iteration) + n
      ensures time.seconds == old(time).seconds + n as real * dt.seconds
    {
      for i := 0 to n
        invariant dt == old(dt) && boundary == old(boundary) && temperature == old(temperature)
        invariant CanRun(particles, dt, boundary, n - i)
        invariant Run(particles, dt, boundary, n - i) == Run(old(particles), dt, boundary, n)
        invariant iteration == old(iteration) + i
        invariant time.seconds == old(time).seconds + i as real * dt.seconds
      {
        Step();
      }
    }
  }
}
