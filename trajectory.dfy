/**
 * Model of `src/trajectory.rs`: an append-only log of frames recorded from a
 * universe, and its rendering in the `.gro` format as a sequence of lines.
 * The lines are kept as structured values (the numbers they print); the
 * fixed-width float formatting is not modelled.
 */
module Trajectories {
  import Times
  import Vectors
  import Universes

  /** `Frame`: the time and a copy of the particles at one moment. */
  datatype Frame = Frame(time: Times.Time, particles: seq<Universes.Particle>)

  /** One line of `.gro` output. */
  datatype GroLine =
    /** `{title}, t= {picoseconds}` */
    | Header(title: string, picoseconds: real)
    /** The particle count line. */
    | Count(count: nat)
    /** One particle: its 0-based index, position in nm and velocity in km/s. */
    | Atom(index: nat, position: Vectors.Vec3, velocity: Vectors.Vec3)
    /** `{bb_x} {bb_y} {bb_z}` */
    | BoxSize(size: Vectors.Vec3)

  /** The particle lines of one frame, numbered from 0, with positions scaled by
      1e9 (m to nm) and velocities by 1e-3 (m/s to km/s). */
  function AtomLines(particles: seq<Universes.Particle>): (lines: seq<GroLine>)
    ensures |lines| == |particles|
    ensures forall i :: 0 <= i < |particles| ==>
      lines[i] == Atom(i, particles[i].pos.Scale(1000000000.0), particles[i].vel.Scale(0.001))
  {
    seq(|particles|, i requires 0 <= i < |particles| =>
      Atom(i, particles[i].pos.Scale(1000000000.0), particles[i].vel.Scale(0.001)))
  }

  /** The lines of one frame: header, count, one line per particle, box. */
  function FrameLines(title: string, count: nat, frame: Frame, box: Vectors.Vec3): seq<GroLine> {
    [Header(title, frame.time.Picoseconds()), Count(count)] + AtomLines(frame.particles) + [BoxSize(box)]
  }

  /** The whole `.gro` text: every frame, in recording order. */
  function GroLines(title: string, count: nat, frames: seq<Frame>, box: Vectors.Vec3): seq<GroLine>
  {
    if frames == [] then []
    else GroLines(title, count, frames[..|frames| - 1], box) + FrameLines(title, count, frames[|frames| - 1], box)
  }

  /** Σ (|particles| + 3) over the frames. */
  function TotalLines(frames: seq<Frame>): nat {
    if frames == [] then 0 else TotalLines(frames[..|frames| - 1]) + |frames[|frames| - 1].particles| + 3
  }

  /** The output has three lines per frame plus one per recorded particle. */
  lemma {:induction false} GroLinesLength(title: string, count: nat, frames: seq<Frame>, box: Vectors.Vec3)
    ensures |GroLines(title, count, frames, box)| == TotalLines(frames)
    decreases |frames|
  {
    if frames != [] {
      GroLinesLength(title, count, frames[..|frames| - 1], box);
    }
  }

  /** Frames are rendered in the order they were recorded: the output of two
      runs of frames is the output of the first followed by that of the second. */
  lemma {:induction false} GroLinesAppend(title: string, count: nat, fs: seq<Frame>, gs: seq<Frame>, box: Vectors.Vec3)
    ensures GroLines(title, count, fs + gs, box) == GroLines(title, count, fs, box) + GroLines(title, count, gs, box)
    decreases |gs|
  {
    if gs == [] {
      assert fs + gs == fs;
    } else {
      GroLinesAppend(title, count, fs, gs[..|gs| - 1], box);
      assert (fs + gs)[..|fs + gs| - 1] == fs + gs[..|gs| - 1];
    }
  }

  /** A count line carries `count` and a box line carries `box`. */
  predicate UsesFixedCountAndBox(line: GroLine, count: nat, box: Vectors.Vec3) {
    (line.Count? ==> line.count == count) && (line.BoxSize? ==> line.size == box)
  }

  /** Every count line carries the count fixed when the trajectory was created,
      not the number of particles in its own frame; every box line the same box. */
  lemma {:induction false} GroLinesUseFixedCountAndBox(title: string, count: nat, frames: seq<Frame>, box: Vectors.Vec3)
    ensures forall k :: 0 <= k < |GroLines(title, count, frames, box)| ==>
      UsesFixedCountAndBox(GroLines(title, count, frames, box)[k], count, box)
    decreases |frames|
  {
    if frames != [] {
      GroLinesUseFixedCountAndBox(title, count, frames[..|frames| - 1], box);
      var prefix := GroLines(title, count, frames[..|frames| - 1], box);
      var last := FrameLines(title, count, frames[|frames| - 1], box);
      var atoms := AtomLines(frames[|frames| - 1].particles);
      forall j | 0 <= j < |last|
        ensures UsesFixedCountAndBox(last[j], count, box)
      {
        if 2 <= j < |last| - 1 {
          assert last[j] == atoms[j - 2];
        }
      }
      var all := prefix + last;
      forall k | 0 <= k < |all|
        ensures UsesFixedCountAndBox(all[k], count, box)
      {
        if k >= |prefix| {
          assert all[k] == last[k - |prefix|];
        }
      }
    }
  }

  /** `Trajectory`. */
  class Trajectory {
    var title: string
    var nParticles: nat
    var frames: seq<Frame>
    var boundingBox: Vectors.Vec3

    /** `Trajectory::from_universe`: count and box are taken from the universe; no frames yet. */
    constructor FromUniverse(u: Universes.Universe, title: string)
      ensures this.title == title
      ensures nParticles == |u.particles| && boundingBox == u.boundary
      ensures frames == []
    {
      this.title := title;
      nParticles := |u.particles|;
      frames := [];
      boundingBox := u.boundary;
    }

    /** `add_frame_from_universe`: appends one frame holding the universe's time and particles. */
    method AddFrameFromUniverse(u: Universes.Universe)
      modifies this
      ensures frames == old(frames) + [Frame(u.time, u.particles)]
      ensures title == old(title) && nParticles == old(nParticles) && boundingBox == old(boundingBox)
    {
      frames := frames + [Frame(u.time, u.particles)];
    }

    /** `to_gro`: header, count, particle lines and box for every frame, in order. */
    method ToGro() returns (lines: seq<GroLine>)
      ensures lines == GroLines(title, nParticles, frames, boundingBox)
    {
      lines := [];
      for f := 0 to |frames|
        invariant lines == GroLines(title, nParticles, frames[..f], boundingBox)
      {
        var frame := frames[f];
        ghost var before := lines;
        lines := lines + [Header(title, frame.time.Picoseconds()), Count(nParticles)];
        for index := 0 to |frame.particles|
          invariant lines == before + [Header(title, frame.time.Picoseconds()), Count(nParticles)]
                             + AtomLines(frame.particles[..index])
        {
          var particle := frame.particles[index];
          lines := lines + [Atom(index, particle.pos.Scale(1000000000.0), particle.vel.Scale(0.001))];
        }
        assert frame.particles[..|frame.particles|] == frame.particles;
        lines := lines + [BoxSize(boundingBox)];
        assert frames[..f + 1][..f] == frames[..f];
      }
      assert frames[..|frames|] == frames;
    }
  }
}
