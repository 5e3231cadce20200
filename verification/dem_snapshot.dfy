/**
 The `data` file the particle solver writes.  A save writes one header line
 (particle count, time, then the domain box `0 0 0 1 1 1`) followed by one
 line per particle (position, velocity, radius, then seven zeros).  A line
 is modelled as the sequence of the numbers on it.
 */
module DemSnapshot {
  import opened Vec3s
  import opened Wrappers
  import opened DemEntities

  type Line = seq<real>

  /** What a save records about one particle. */
  datatype ParticleView = ParticleView(r: Vec3, v: Vec3, a: real)

  /** One save: the time and the recorded particles, in particle order. */
  datatype Frame = Frame(t: real, particles: seq<ParticleView>)

  function ViewOf(p: Particle): ParticleView {
    ParticleView(p.r, p.v, p.a)
  }

  function Views(ps: seq<Particle>): (vs: seq<ParticleView>)
    ensures |vs| == |ps| && forall i :: 0 <= i < |ps| ==> vs[i] == ViewOf(ps[i])
  {
    if |ps| == 0 then [] else Views(ps[..|ps| - 1]) + [ViewOf(ps[|ps| - 1])]
  }

  const DomainBox: Line := [0.0, 0.0, 0.0, 1.0, 1.0, 1.0]
  const Padding: Line := [0.0, 0.0, 0.0, 0.0, 0.0, 0.0, 0.0]

  function HeaderLine(count: nat, t: real): Line {
    [count as real, t] + DomainBox
  }

  function ParticleLine(p: ParticleView): Line {
    [p.r.x, p.r.y, p.r.z, p.v.x, p.v.y, p.v.z, p.a] + Padding
  }

  function ParticleLines(ps: seq<ParticleView>): seq<Line> {
    if |ps| == 0 then [] else [ParticleLine(ps[0])] + ParticleLines(ps[1..])
  }

  /** The lines of one save. */
  function EncodeFrame(f: Frame): seq<Line> {
    [HeaderLine(|f.particles|, f.t)] + ParticleLines(f.particles)
  }

  /** The whole file: the saves one after the other. */
  function EncodeFile(fs: seq<Frame>): seq<Line> {
    if |fs| == 0 then [] else EncodeFrame(fs[0]) + EncodeFile(fs[1..])
  }

  // ---------------------------------------------------------------- reading back

  /** The particle count a header announces, if the line is a header. */
  function HeaderCount(line: Line): Option<nat> {
    if |line| == 8 && line[2..] == DomainBox && line[0] >= 0.0 && line[0].Floor as real == line[0]
    then Some(line[0].Floor as nat) else None
  }

  function DecodeParticle(line: Line): Option<ParticleView> {
    if |line| == 14 && line[7..] == Padding
    then Some(ParticleView(Vec3(line[0], line[1], line[2]), Vec3(line[3], line[4], line[5]), line[6]))
    else None
  }

  function DecodeParticles(lines: seq<Line>): Option<seq<ParticleView>> {
    if |lines| == 0 then Some([])
    else match (DecodeParticle(lines[0]), DecodeParticles(lines[1..]))
      case (Some(p), Some(ps)) => Some([p] + ps)
      case _ => None
  }

  /** Reads a file back into its saves; `None` when it is not a sequence of well-formed saves. */
  function DecodeFile(lines: seq<Line>): Option<seq<Frame>>
    decreases |lines|
  {
    if |lines| == 0 then Some([])
    else match HeaderCount(lines[0])
      case None => None
      case Some(count) =>
        if |lines| < 1 + count then None
        else match (DecodeParticles(lines[1..1 + count]), DecodeFile(lines[1 + count..]))
          case (Some(ps), Some(rest)) => Some([Frame(lines[0][1], ps)] + rest)
          case _ => None
  }

  // ---------------------------------------------------------------- round trips

  lemma ParticleLineRoundTrip(p: ParticleView)
    ensures DecodeParticle(ParticleLine(p)) == Some(p)
  {
    assert ParticleLine(p)[7..] == Padding;
  }

  lemma {:induction false} ParticleLinesRoundTrip(ps: seq<ParticleView>)
    ensures |ParticleLines(ps)| == |ps|
    ensures DecodeParticles(ParticleLines(ps)) == Some(ps)
  {
    if |ps| > 0 {
      ParticleLinesRoundTrip(ps[1..]);
      ParticleLineRoundTrip(ps[0]);
      var lines := ParticleLines(ps);
      assert lines[0] == ParticleLine(ps[0]);
      assert lines[1..] == ParticleLines(ps[1..]);
      assert [ps[0]] + ps[1..] == ps;
    }
  }

  lemma HeaderRoundTrip(count: nat, t: real)
    ensures HeaderCount(HeaderLine(count, t)) == Some(count)
  {
    assert HeaderLine(count, t)[2..] == DomainBox;
  }

  /** Every list of saves is read back exactly from the file it produces. */
  lemma {:induction false} EncodeDecodeFile(fs: seq<Frame>)
    ensures DecodeFile(EncodeFile(fs)) == Some(fs)
  {
    if |fs| > 0 {
      EncodeDecodeFile(fs[1..]);
      DecodeFrameThen(fs[0], EncodeFile(fs[1..]), fs[1..]);
      assert [fs[0]] + fs[1..] == fs;
    }
  }

  /** A save followed by lines that read back reads back as that save followed by what they read back to. */
  lemma DecodeFrameThen(f: Frame, rest: seq<Line>, tail: seq<Frame>)
    requires DecodeFile(rest) == Some(tail)
    ensures DecodeFile(EncodeFrame(f) + rest) == Some([f] + tail)
  {
    var lines := EncodeFrame(f) + rest;
    var count := |f.particles|;
    HeaderRoundTrip(count, f.t);
    ParticleLinesRoundTrip(f.particles);
    assert lines[0] == HeaderLine(count, f.t);
    assert lines[1..1 + count] == ParticleLines(f.particles);
    assert lines[1 + count..] == rest;
  }

  lemma {:induction false} DecodeParticlesInverse(lines: seq<Line>, ps: seq<ParticleView>)
    requires DecodeParticles(lines) == Some(ps)
    ensures ParticleLines(ps) == lines && |ps| == |lines|
  {
    if |lines| > 0 {
      var p := DecodeParticle(lines[0]).value;
      var rest := DecodeParticles(lines[1..]).value;
      DecodeParticlesInverse(lines[1..], rest);
      assert ParticleLine(p) == lines[0];
      assert ps[1..] == rest;
    }
  }

  lemma HeaderInverse(line: Line, count: nat)
    requires HeaderCount(line) == Some(count)
    ensures HeaderLine(count, line[1]) == line
  {
    assert line == line[..2] + line[2..];
    assert line[0] == count as real;
  }

  /** Every file that reads back is exactly the encoding of what it reads back to. */
  lemma {:induction false} DecodeEncodeFile(lines: seq<Line>, fs: seq<Frame>)
    requires DecodeFile(lines) == Some(fs)
    ensures EncodeFile(fs) == lines
    decreases |lines|
  {
    if |lines| > 0 {
      var count := HeaderCount(lines[0]).value;
      var ps := DecodeParticles(lines[1..1 + count]).value;
      var rest := DecodeFile(lines[1 + count..]).value;
      DecodeParticlesInverse(lines[1..1 + count], ps);
      DecodeEncodeFile(lines[1 + count..], rest);
      HeaderInverse(lines[0], count);
      assert fs[0] == Frame(lines[0][1], ps) && fs[1..] == rest;
      assert lines == [lines[0]] + lines[1..1 + count] + lines[1 + count..];
    }
  }

  /** Saving one more frame appends its lines to the file. */
  lemma {:induction false} EncodeFileAppend(fs: seq<Frame>, f: Frame)
    ensures EncodeFile(fs + [f]) == EncodeFile(fs) + EncodeFrame(f)
  {
    if |fs| == 0 {
      assert EncodeFile([f]) == EncodeFrame(f) + EncodeFile([]);
    } else {
      EncodeFileAppend(fs[1..], f);
      assert (fs + [f])[0] == fs[0] && (fs + [f])[1..] == fs[1..] + [f];
      assert EncodeFile(fs + [f]) == EncodeFrame(fs[0]) + EncodeFile(fs[1..] + [f]);
    }
  }
}
