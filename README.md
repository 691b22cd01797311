# bibber core in Dafny

This project models the core of `bibber`, a small molecular-dynamics
simulator. The modelled parts are:

- **Recipe format** (`recipe.dfy`). A line-oriented text
  format. Each non-blank line starts with a keyword (`title`, `start`, `end`,
  `snapshot`, `timestep`, `temperature`, `particles`, `boundary`) followed by
  arguments. Quantities are written `value:unit`. `from_string` folds the lines
  into eight optional fields, then requires every field to be present.
- **`Time`** (`time.dfy`). A seconds wrapper with unit constructors and
  getters, and the four arithmetic operators with their compound-assignment
  forms.
- **`Vec3`** (`vec3.dfy`). A three-component vector with:
  - component-wise operators;
  - scalar and `Time` broadcast;
  - integer powers;
  - a norm, which takes the square root as a parameter.
- **`Universe`** (`universe.dfy`). Particles in a periodic box. `step` runs
  these stages in order:
  1. a predictor loop;
  2. a force loop that sums the Lennard-Jones pair term over a snapshot of the
     predicted positions, skipping the particle itself;
  3. a per-axis wrap with the truncated remainder `%`;
  4. advancing the clock by `dt` and the iteration count by one.
- **`Trajectory`** (`trajectory.dfy`). An append-only frame log, and its
  rendering as `.gro` lines.

Quantities are `real`, so unit conversions and round trips are exact. Where
IEEE arithmetic would divide by zero, the model requires a non-zero divisor.
The number parser `str::parse::<f64>` is a parameter of the recipe parsers
(`parseFloat: string -> Option<real>`). A panic is an outcome of its own,
`Panicked(message)`. Compound assignments on the value types (`+=` and the
rest) are methods that return the updated value. The universe and the
trajectory are classes whose methods update their fields in place.

Some behaviour of the code, as written, differs from what its names suggest.
The model keeps the code's behaviour and proves what it is:

- **Swapped time units.** `from_femtoseconds` divides by 10^12 and
  `from_picoseconds` by 10^15, so one "femtosecond" equals a thousand
  "picoseconds". See `Times.FemtosecondIsThousandPicoseconds`.
- **Celsius offset.** A temperature in `C` is converted by *subtracting*
  273.15. See `Recipes.CelsiusAsWritten`.
- **Symmetric pair term.** `lennard_jones` is even in the separation. Each
  particle adds `-lennard_jones(own - other)`, so two particles feel the same
  force, not opposite forces. See `Universes.TwoBodyForcesAreEqual`.
- **Wrap can stay outside the cell.** The boundary wrap can leave a coordinate
  outside `[-b/2, b/2]`: `0.8` in a box of `1` stays `0.8`. See
  `Universes.WrapCoordExamples`.
- **Title spacing.** The `title` keyword concatenates its words with no
  separator. See `Recipes.ConcatWords`.

## Model

| member | source | states |
|---|---|---|
| Times.Zero | src/time.rs:10-12 | zero has 0 seconds and is a right identity of `+` |
| Times.FromSeconds | src/time.rs:16-18 | stores its argument as the seconds |
| Times.FromMilliseconds | src/time.rs:20-22 | the seconds times 1000 give back the argument |
| Times.FromMicroseconds | src/time.rs:24-26 | the seconds times 10^6 give back the argument |
| Times.FromNanoseconds | src/time.rs:28-30 | the seconds times 10^9 give back the argument |
| Times.FromFemtoseconds | src/time.rs:32-34 | the seconds times 10^12 give back the argument (the factor as written) |
| Times.FromPicoseconds | src/time.rs:36-38 | the seconds times 10^15 give back the argument (the factor as written) |
| Times.Time.Seconds | src/time.rs:42-44 | `from_seconds` of the result is the original time |
| Times.Time.Milliseconds | src/time.rs:46-48 | `from_milliseconds` of the result is the original time |
| Times.Time.Microseconds | src/time.rs:50-52 | `from_microseconds` of the result is the original time |
| Times.Time.Nanoseconds | src/time.rs:54-56 | `from_nanoseconds` of the result is the original time |
| Times.Time.Femtoseconds | src/time.rs:58-60 | `from_femtoseconds` of the result is the original time |
| Times.Time.Picoseconds | src/time.rs:62-64 | `from_picoseconds` of the result is the original time |
| Times.UnitRoundTrips | src/time.rs:16-64 | for every unit, `from_X(v).X() == v` |
| Times.FemtosecondIsThousandPicoseconds | src/time.rs:32-38 | `from_femtoseconds(v) == from_picoseconds(1000 v)`, so the two smallest units are swapped |
| Times.Time.Add | src/time.rs:67-73 | subtracting `rhs` from the sum gives the original back; the sum is not smaller iff `rhs` is non-negative |
| Times.Time.Sub | src/time.rs:81-87 | the difference plus `rhs` is the original; the difference is not larger iff `rhs` is non-negative |
| Times.Time.Mul | src/time.rs:95-101 | dividing the product by a non-zero `rhs` gives the original seconds; times a zero `rhs` is `zero()`; the product is zero iff either factor is |
| Times.Time.Div | src/time.rs:109-115 | the quotient times `rhs` gives the original seconds |
| Times.Time.AddAssign | src/time.rs:75-79 | the updated value equals the binary `+` |
| Times.Time.SubAssign | src/time.rs:89-93 | the updated value equals the binary `-` |
| Times.Time.MulAssign | src/time.rs:103-107 | the updated value equals the binary `*` |
| Times.Time.DivAssign | src/time.rs:117-121 | the updated value equals the binary `/` |
| Times.AddSubInverse | src/time.rs:67-87 | `(a + b).seconds() == a.seconds() + b.seconds()`, `(a + b) - b == a`, and `+` commutes |
| Times.OrderIsTotal | src/time.rs:3-7 | the derived ordering compares seconds, is total, and `<=` is `<` or equality |
| Vectors.PowNonZero | src/vec3.rs:166-174 | a power of a non-zero base is non-zero, so a negative exponent is defined |
| Vectors.PowI | src/vec3.rs:166-174 | a non-negative exponent is the repeated product; a negative one gives the reciprocal of the positive power |
| Vectors.PowAdd | src/vec3.rs:166-174 | `b^(m+n) == b^m * b^n` |
| Vectors.PowNegEven | src/vec3.rs:166-174 | an even power ignores the sign of the base |
| Vectors.Vec3.Add | src/vec3.rs:36-46 | subtracting `rhs` from the sum gives the original vector |
| Vectors.Vec3.Sub | src/vec3.rs:56-66 | the difference is the zero vector iff the operands are equal |
| Vectors.Vec3.Neg | src/vec3.rs:118-128 | the vector plus its negation is the zero vector |
| Vectors.Vec3.DivScalar | src/vec3.rs:152-162 | dividing by a scalar is dividing by the vector with that scalar in every component |
| Vectors.Vec3.MulTime | src/vec3.rs:178-192 | multiplying by a time is multiplying every component by its seconds |
| Vectors.Vec3.Powi | src/vec3.rs:166-174 | `powi(0)` is `one()`, `powi(1)` is the vector, `powi(2)` is its component-wise square |
| Vectors.Vec3.Norm | src/vec3.rs:27-31 | the norm is non-negative and its square is x² + y² + z² |
| Vectors.Vec3.AddAssign | src/vec3.rs:48-54 | the updated value equals the binary `+` |
| Vectors.Vec3.SubAssign | src/vec3.rs:68-74 | the updated value equals the binary `-` |
| Vectors.Vec3.MulAssign | src/vec3.rs:88-94 | the updated value equals the binary `*` |
| Vectors.Vec3.DivAssign | src/vec3.rs:108-114 | the updated value equals the binary `/` |
| Vectors.Vec3.SubAssignScalar | src/vec3.rs:132-138 | the scalar is subtracted from every component |
| Vectors.Identities | src/vec3.rs:17-23 | `zero()` is the identity of `+` and `-`, `one()` the identity of `*`; `powi(0)` is `one()` |
| Vectors.AddSubNegInverse | src/vec3.rs:36-66 | `(a + b) - b == a`, `-(-a) == a`, and `a - b == a + (-b)` |
| Vectors.ScaleIsMulSplat | src/vec3.rs:140-150 | scalar `*` is `*` by the vector with the scalar in every component |
| Vectors.MulDivInverse | src/vec3.rs:76-106 | division by a non-zero vector undoes multiplication by it |
| Vectors.ScaleDivScalarInverse | src/vec3.rs:140-162 | scalar `*` and scalar `/` by the same non-zero scalar undo each other |
| Vectors.DivIsOneIff | src/vec3.rs:96-106 | a quotient is `one()` iff dividend and divisor are equal |
| Vectors.MulTimeExample | src/vec3.rs:178-192 | (1, 2, -3) × 100 ms == (0.1, 0.2, -0.3) |
| Vectors.PowiOfNat | src/vec3.rs:166-174 | a non-negative `powi` raises each component to that power |
| Vectors.PowiAdd | src/vec3.rs:166-174 | `v.powi(m + n) == v.powi(m) * v.powi(n)` |
| Vectors.PowiNegEven | src/vec3.rs:166-174 | an even `powi` ignores the sign of every component |
| Vectors.NormOfZero | src/vec3.rs:27-31 | `zero().norm() == 0` |
| Universes.LennardJonesIsComponentwise | src/universe.rs:66-82 | `lennard_jones(r)` applies `4ε((σ/c)^12 - (σ/c)^6)` to each component `c` |
| Universes.LennardJonesEven | src/universe.rs:66-82 | `lennard_jones(-r) == lennard_jones(r)` |
| Universes.ForceOn | src/universe.rs:97-110 | the inner loop's force is the sum of `-lennard_jones(pos - other)` over every other snapshot entry |
| Universes.NetForceExcludesSelf | src/universe.rs:97-110 | the force on `i` is the pair-force sum over the snapshot with entry `i` removed |
| Universes.PartialForceIsSumWithout | src/universe.rs:103-110 | after `j` iterations, the force is the pair-force sum over the first `j` entries minus the particle itself |
| Universes.TwoBodyForcesAreEqual | src/universe.rs:97-113 | with two particles, both receive the same force `-lennard_jones(p - q)` |
| Universes.TruncRem | src/universe.rs:124-141 | `%` on `f64`: differs from the dividend by a whole multiple of the divisor, with magnitude below the divisor and the sign of the dividend, so it is the truncated remainder; identity on values already smaller |
| Universes.WrapCoord | src/universe.rs:124-141 | coordinates inside `[-b/2, b/2]` are unchanged; every result differs from the coordinate by a whole multiple of `b` (an equivalent position in the periodic box); the magnitude does not grow and the sign is kept; a coordinate outside `[-b/2, b/2]` is reduced below `|b|`, which with the sign and the whole-multiple clauses makes it `c % b` |
| Universes.WrapCoordIdempotent | src/universe.rs:124-141 | wrapping a wrapped coordinate changes nothing |
| Universes.WrapCoordExamples | src/universe.rs:124-141 | with `b = 1`: 0.8 stays 0.8 (outside the half-cell), 1.2 becomes 0.2, -1.2 becomes -0.2 |
| Universes.PredictorUpdate | src/universe.rs:88-93 | the update as written, with `Time` broadcast, is pos + vel·dt + acc·dt²/2 and vel + acc·dt over the seconds of dt |
| Universes.Predict | src/universe.rs:87-93 | pos' = pos + vel·dt + acc·dt²/2 and vel' = vel + acc·dt from the old acceleration; acc and mass unchanged |
| Universes.StepParticles | src/universe.rs:86-175 | one step keeps count, order and masses; velocities are the predictor's; positions are the wrapped predicted ones; accelerations are net force over mass on the predicted snapshot |
| Universes.RunPreservesMasses | src/universe.rs:177-182 | any number of steps keeps the particle count and every mass |
| Universes.Universe.constructor | src/universe.rs:39-48 | time 0, iteration 0, the given dt, boundary 1e-8 on every axis, temperature 200, no particles |
| Universes.Universe.SetBoundary | src/universe.rs:50-53 | replaces the boundary and nothing else |
| Universes.Universe.AddParticle | src/universe.rs:55-58 | appends one particle at the end; nothing else changes |
| Universes.Universe.AddParticles | src/universe.rs:60-63 | appends the particles at the end, in order; nothing else changes |
| Universes.Universe.Predictor | src/universe.rs:87-93 | every particle becomes its predicted state; the other fields are unchanged |
| Universes.Universe.ApplyForces | src/universe.rs:96-115 | every acceleration becomes the net force on the snapshot divided by the mass |
| Universes.Universe.ApplyBoundary | src/universe.rs:124-141 | every position is wrapped axis by axis; nothing else changes |
| Universes.Universe.Step | src/universe.rs:86-175 | particles become `StepParticles` of the old ones; dt, boundary and temperature are kept; time grows by dt; iteration grows by 1 |
| Universes.Universe.Steps | src/universe.rs:177-182 | particles become `n` steps of the old ones; iteration grows by n; time grows by n·dt |
| Recipes.CheckArgumentsCount | src/recipe/mod.rs:108-114 | `TooFewArguments` iff too few, `TooManyArguments` iff too many, `Ok` iff exactly as many as expected |
| Recipes.ParseArguments | src/recipe/mod.rs:116-127 | `Ok` iff the count matches, and then the arguments in their order; otherwise the count error |
| Recipes.SplitOnce | src/recipe/mod.rs:131-132 | `None` iff there is no separator; otherwise the text is before + separator + after, with no separator before |
| Recipes.SplitOnceAtFirst | src/recipe/mod.rs:131-132 | the split is at the first separator, and later separators stay in the second part |
| Recipes.ParseLength | src/recipe/mod.rs:130-154 | no colon gives `NoUnit`; success only with a listed length unit |
| Recipes.LengthUnitTable | src/recipe/mod.rs:135-151 | a length unit scales by its factor (km 1e3 … fm 1e-15); a time or temperature unit is `InvalidUnit`; anything else is `UnknownUnit` |
| Recipes.ParseLengthOf | src/recipe/mod.rs:130-154 | in order: empty unit gives `NoUnit`, then a bad number gives `ParseFloatError`, then a length unit gives value × factor, a time or temperature unit gives `InvalidUnit`, and anything else gives `UnknownUnit` |
| Recipes.ParseTime | src/recipe/mod.rs:156-176 | no colon gives `NoUnit`; success only with a listed time unit |
| Recipes.TimeUnitTable | src/recipe/mod.rs:161-173 | a time unit gives the time whose seconds times the unit's divisor are the value; a length or temperature unit is `InvalidUnit`; anything else is `UnknownUnit` |
| Recipes.ParseTimeOf | src/recipe/mod.rs:156-176 | the same order of errors; a time unit gives the time whose seconds times the unit's divisor are the value |
| Recipes.ParseTemperatureValue | src/recipe/mod.rs:178-194 | no colon gives `NoUnit`; success only with `K` or `C` |
| Recipes.TemperatureUnitTable | src/recipe/mod.rs:183-191 | `K` subtracts 0 and `C` subtracts 273.15; a length or time unit is `InvalidUnit`; anything else is `UnknownUnit` |
| Recipes.ParseTemperatureValueOf | src/recipe/mod.rs:178-194 | the same order of errors; `K` keeps the value and `C` subtracts 273.15 |
| Recipes.UnitIsAfterFirstColon | src/recipe/mod.rs:131-151 | `"1:m:x"` has the unit `"m:x"`, which is `UnknownUnit` |
| Recipes.NumberBeforeUnit | src/recipe/mod.rs:130-194 | a malformed number gives `ParseFloatError` whatever the unit, in all three parsers |
| Recipes.CelsiusAsWritten | src/recipe/mod.rs:178-194 | `"0:C"` reads as -273.15 and `"300:K"` as 300 |
| Recipes.ParseSingleTime | src/recipe/mod.rs:197-200 | exactly one argument, read as a time; otherwise the count error |
| Recipes.ParseTemperature | src/recipe/mod.rs:211-214 | exactly one argument, read as a temperature; otherwise the count error |
| Recipes.AsUsize | src/recipe/mod.rs:225-228 | `as usize` truncates toward zero and saturates at 0 and `usize::MAX` |
| Recipes.ParseParticles | src/recipe/mod.rs:225-228 | exactly one argument; `Ok` iff it parses as a number, and then its truncation to `usize`: 0 below 1, `usize::MAX` at or above it, the floor in between |
| Recipes.ParseBoundary | src/recipe/mod.rs:239-248 | exactly four arguments, the first ignored; x, y, z parsed in order and the first error returned |
| Recipes.Split | src/recipe/mod.rs:55 | at least one piece, and no piece holds the separator |
| Recipes.JoinSplit | src/recipe/mod.rs:55 | joining the pieces with the separator gives the text back |
| Recipes.Lines | src/recipe/mod.rs:55 | no line holds a newline; there are no lines iff the text is empty; the lines joined with newlines give the text back, with one final newline dropped when the text ends in one |
| Recipes.Words | src/recipe/mod.rs:56 | every word is non-empty and holds no ASCII whitespace |
| Recipes.WordsSkipWhitespace | src/recipe/mod.rs:56 | leading whitespace adds no word and changes none |
| Recipes.WordsOfWord | src/recipe/mod.rs:56 | a maximal run of non-whitespace characters is one whole word, followed by the words of the rest |
| Recipes.WordsSplitAtWhitespace | src/recipe/mod.rs:56 | a word, whitespace, then text: the word, then the words of the text |
| Recipes.ConcatWords | src/recipe/mod.rs:58 | the title is the line's arguments with all whitespace removed |
| Recipes.Recipe.Time | src/recipe/mod.rs:25-27 | start + time == end, and the time is non-negative iff start <= end |
| Recipes.Recipe.Snapshots | src/recipe/mod.rs:32-34 | the span over the snapshot interval, truncated to `usize`: the floor in range, 0 when the ratio is below 1 (including a negative span), `usize::MAX` when it reaches that value |
| Recipes.Recipe.Timesteps | src/recipe/mod.rs:39-41 | the span over the timestep, truncated to `usize`: the floor in range, 0 when the ratio is below 1 (including a negative span), `usize::MAX` when it reaches that value |
| Recipes.Finish | src/recipe/mod.rs:71-80 | a recipe iff all eight fields are set, and then each recipe field is the value read into that field; otherwise a panic, never an error |
| Recipes.FinishFirstMissing | src/recipe/mod.rs:71-80 | the panic names the first missing field in the order title, start, end, snapshot, timestep, temperature, particles, boundary |
| Recipes.ReadLine | src/recipe/mod.rs:56-67 | one pass of the loop body updates the fields exactly as the line fold does, or stops with the same error or panic |
| Recipes.FromString | src/recipe/mod.rs:46-81 | the loop over the lines and the `expect` calls compute the line fold followed by the checks for missing fields |
| Recipes.ScanOneMore | src/recipe/mod.rs:55-69 | reading one more line applies that line to the fields read so far |
| Recipes.KeywordLine | src/recipe/mod.rs:57-65 | a line starting with a keyword runs that keyword's arm on the remaining words |
| Recipes.ApplyKeySets | src/recipe/mod.rs:58-65 | a keyword's arm stores its arguments' value in its own field, or stops with their error |
| Recipes.ApplyKeyKeepsOthers | src/recipe/mod.rs:58-65 | a keyword's arm leaves every other field unchanged |
| Recipes.ApplyLineEffect | src/recipe/mod.rs:56-67 | a known keyword sets exactly its own field to its arguments' value or stops with their error; an unknown keyword panics |
| Recipes.ScanFromAppend | src/recipe/mod.rs:55-69 | lines are read in order: `ls + ms` is `ms` read after `ls` |
| Recipes.StoppedPersists | src/recipe/mod.rs:59-67 | the first error or panic decides the outcome, whatever lines follow |
| Recipes.BlankLineIgnored | src/recipe/mod.rs:66 | removing a blank line does not change the outcome |
| Recipes.OtherLinesKeepField | src/recipe/mod.rs:57-68 | lines with other keywords leave a field unchanged |
| Recipes.LastLineWins | src/recipe/mod.rs:55-69 | a repeated keyword keeps the value of its last line |
| Recipes.UnknownKeywordPanics | src/recipe/mod.rs:67 | an unknown keyword panics with `todo!()`'s message |
| Recipes.ScanNeverParses | src/recipe/mod.rs:55-69 | the line loop ends early only with an error or a panic, never with a recipe |
| Recipes.ParsedFromLastLine | src/recipe/mod.rs:55-80 | in a parsed recipe, each field holds the value of the last line with its keyword |
| Trajectories.AtomLines | src/trajectory.rs:45-56 | one line per particle with its 0-based index, position × 1e9 and velocity × 1e-3 |
| Trajectories.GroLinesLength | src/trajectory.rs:36-66 | the output has Σ(particles + 3) lines over the frames |
| Trajectories.GroLinesAppend | src/trajectory.rs:36-66 | frames are rendered in recording order |
| Trajectories.GroLinesUseFixedCountAndBox | src/trajectory.rs:40-63 | every count line carries the count fixed at creation, and every box line the box |
| Trajectories.Trajectory.FromUniverse | src/trajectory.rs:20-27 | the title, the universe's particle count and boundary, and no frames |
| Trajectories.Trajectory.AddFrameFromUniverse | src/trajectory.rs:29-34 | appends one frame with the universe's time and particles; nothing else changes |
| Trajectories.Trajectory.ToGro | src/trajectory.rs:36-66 | the loops produce, frame by frame, a header, the count line, the particle lines and the box line |

## Left out

- Console output is not modelled: `println!`, `eprintln!`, and the kinetic-temperature fold in `step` that only feeds a debug print.
- `src/main.rs` is not part of this model. It covers random particle placement, the wall-clock estimate and the driver loop.
- Floating point is modelled as exact reals. Rounding, NaN and infinity are not modelled.
- Every division in the model requires a non-zero divisor. IEEE arithmetic would instead produce infinity or NaN. This applies to:
  - `Times.Time.Div` and `Times.Time.DivAssign`;
  - `Vectors.Vec3.Div`, `Vectors.Vec3.DivScalar` and `Vectors.Vec3.DivAssign`;
  - `Vectors.PowI` and `Vectors.Vec3.Powi`, which need a non-zero base for a negative exponent;
  - `Universes.LennardJones`;
  - `Universes.TruncRem`;
  - `Recipes.Recipe.Snapshots` and `Recipes.Recipe.Timesteps`;
  - `Universes.CanStep`, the precondition of `step`: masses and boundary extents must be non-zero, and predicted positions must differ pairwise in every coordinate.
- Vectors.Vec3.Norm: the square root is a parameter with the square-root property, not the IEEE `sqrt`.
- Recipes.ParseLength: `str::parse::<f64>` is a parameter. Its grammar, and the payload of `ParseFloatError`, are not modelled. The same holds for every parser that reads a number.
- Recipes.AsUsize: assumes a 64-bit `usize`. The NaN-to-0 cast is not modelled, because reals have no NaN.
- Recipes.Lines: a trailing `'\r'` is not stripped. It is whitespace to `split_ascii_whitespace`, so no keyword line reads differently.
- The fixed-width float formatting of the `.gro` output is not modelled. `to_gro` yields structured lines (`Trajectories.GroLine`) that carry the printed numbers.
- Universes.LennardJones: has no contract of its own. Its properties are stated by `LennardJonesIsComponentwise` and `LennardJonesEven`.
- Vectors.Vec3.Mul: has no contract of its own. The same holds for `Vectors.Vec3.Div` and `Vectors.Vec3.Scale`. Their relations are the lemmas `ScaleIsMulSplat`, `MulDivInverse`, `ScaleDivScalarInverse` and `DivIsOneIff`.
- Vectors.Zero: `Vectors.One` and `Vectors.Splat` are also plain constructors with no contract. They are used in the identity lemmas.
- Compound assignments (`+=`, `-=`, `*=`, `/=`) on `Time` and `Vec3` are modelled as methods that return the updated value, not as mutation through `&mut self`.
- The builder methods `boundary`, `add_particle` and `add_particles` take and return `self` by value in the source. They are modelled as in-place updates of the universe.
- Recipes.FromString: the eight `Option` locals are kept together as one `Fields` value. The body of the line loop is the method `ReadLine`.
- Universes.Universe.Step: is split into three stage methods (`Predictor`, `ApplyForces`, `ApplyBoundary`). The inner force loop is the module-level method `ForceOn`.
- Behaviour the source has stubbed or commented out is not modelled: the corrector stage, pressure control and the velocity rescale to the target temperature.
