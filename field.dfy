/** The particle field: the canvas size, the particle list, the pointer
    position, and the operations the script performs on them (seeding the
    field, one animation tick, a canvas resize, a pointer move). */
module ParticleField {
  import opened Particles
  import opened Connections

  const MaxParticles: nat := 80
  const AreaPerParticle: nat := 15000

  /** `Math.min(80, Math.floor(width * height / 15000))`. */
  function ParticleCount(width: nat, height: nat): (n: nat)
    ensures n <= MaxParticles
    ensures n <= width * height / AreaPerParticle
    ensures n == MaxParticles || n == width * height / AreaPerParticle
    ensures n > 0 ==> width > 0 && height > 0 && width * height >= AreaPerParticle
  {
    var byArea := width * height / AreaPerParticle;
    if byArea < MaxParticles then byArea else MaxParticles
  }

  /** `dists[i]` is the pointer's distance from particle `i` after its drift. */
  predicate PointerDistances(ps: seq<Particle>, mouse: Point, dists: seq<real>)
  {
    |dists| == |ps| &&
    forall i :: 0 <= i < |ps| ==> PointerDistance(Drift(ps[i]), mouse, dists[i])
  }

  /** Every particle after one `update` each. */
  function StepAll(ps: seq<Particle>, mouse: Point, width: nat, height: nat, dists: seq<real>): (qs: seq<Particle>)
    requires PointerDistances(ps, mouse, dists)
    ensures |qs| == |ps|
    ensures forall i :: 0 <= i < |ps| ==>
              && SameAttributes(ps[i], qs[i])
              && 0.0 <= qs[i].x <= width as real && 0.0 <= qs[i].y <= height as real
  {
    seq(|ps|, i requires 0 <= i < |ps| => Stepped(ps[i], mouse, width, height, dists[i]))
  }

  /** With the pointer at its default position, a tick over particles that
      satisfy the field invariant is pure drift plus wrap for every one. */
  lemma StepAllAtDefaultMouse(ps: seq<Particle>, width: nat, height: nat, dists: seq<real>)
    requires forall i :: 0 <= i < |ps| ==> Attributes(ps[i]) && 0.0 <= ps[i].x && 0.0 <= ps[i].y
    requires PointerDistances(ps, DefaultMouse, dists)
    ensures forall i :: 0 <= i < |ps| ==>
              StepAll(ps, DefaultMouse, width, height, dists)[i] == Wrap(Drift(ps[i]), width, height)
  {
    forall i | 0 <= i < |ps|
      ensures StepAll(ps, DefaultMouse, width, height, dists)[i] == Wrap(Drift(ps[i]), width, height)
    {
      DefaultMouseIsPureDrift(ps[i], width, height, dists[i]);
    }
  }

  class Field {
    var width: nat
    var height: nat
    var particles: seq<Particle>
    var mouse: Point

    /** What holds of every particle at all times: the seeded attribute
        ranges and a non-negative position (a resize can leave a particle
        beyond the right or bottom edge, never beyond the left or top). */
    ghost predicate Valid()
      reads this
    {
      forall i :: 0 <= i < |particles| ==>
        Attributes(particles[i]) && 0.0 <= particles[i].x && 0.0 <= particles[i].y
    }

    /** Every particle lies on the canvas, edges included. */
    ghost predicate OnCanvas()
      reads this
    {
      forall i :: 0 <= i < |particles| ==>
        particles[i].x <= width as real && particles[i].y <= height as real
    }

    constructor (width: nat, height: nat)
      ensures Valid()
      ensures this.width == width && this.height == height
      ensures particles == [] && mouse == DefaultMouse
    {
      this.width := width;
      this.height := height;
      particles := [];
      mouse := DefaultMouse;
    }

    /** The `mousemove` listener. */
    method MoveMouse(x: real, y: real)
      modifies this
      ensures mouse == Point(x, y)
      ensures width == old(width) && height == old(height) && particles == old(particles)
    {
      mouse := Point(x, y);
    }

    /** The `resize` listener: only the canvas changes size; the particles
        are neither reseeded nor moved. */
    method Resize(newWidth: nat, newHeight: nat)
      requires Valid()
      modifies this
      ensures Valid()
      ensures width == newWidth && height == newHeight
      ensures particles == old(particles) && mouse == old(mouse)
    {
      width := newWidth;
      height := newHeight;
    }

    /** `initParticles`: size the canvas, then replace the particle list by
        `ParticleCount` fresh particles, the i-th seeded from `draws[i]`. */
    method InitParticles(newWidth: nat, newHeight: nat, draws: seq<Draw>)
      requires |draws| >= ParticleCount(newWidth, newHeight)
      requires forall i :: 0 <= i < |draws| ==> ValidDraw(draws[i])
      modifies this
      ensures width == newWidth && height == newHeight && mouse == old(mouse)
      ensures |particles| == ParticleCount(newWidth, newHeight) <= MaxParticles
      ensures forall i :: 0 <= i < |particles| ==> particles[i] == Reset(width, height, draws[i])
      ensures Valid() && OnCanvas()
      ensures forall i :: 0 <= i < |particles| ==>
                particles[i].x < width as real && particles[i].y < height as real
    {
      width := newWidth;
      height := newHeight;
      var count := ParticleCount(width, height);
      particles := [];
      for i := 0 to count
        invariant width == newWidth && height == newHeight && mouse == old(mouse)
        invariant |particles| == i
        invariant forall k :: 0 <= k < i ==> particles[k] == Reset(width, height, draws[k])
      {
        particles := particles + [Reset(width, height, draws[i])];
      }
    }

    /** `animateParticles`: update every particle once, in order, then
        select the connections among the updated particles. `dists` are the
        pointer distances the updates compute, `pairDists` the distances
        between the updated particles. */
    method Tick(dists: seq<real>, pairDists: seq<seq<real>>) returns (links: seq<Link>)
      requires Valid()
      requires PointerDistances(particles, mouse, dists)
      requires PairDistances(StepAll(particles, mouse, width, height, dists), pairDists)
      modifies this
      ensures width == old(width) && height == old(height) && mouse == old(mouse)
      ensures particles == StepAll(old(particles), mouse, width, height, dists)
      ensures Valid() && OnCanvas()
      ensures mouse == DefaultMouse ==>
                forall i :: 0 <= i < |particles| ==>
                  particles[i] == Wrap(Drift(old(particles)[i]), width, height)
      ensures Selected(particles, pairDists, links)
    {
      ghost var before := particles;
      for i := 0 to |particles|
        invariant width == old(width) && height == old(height) && mouse == old(mouse)
        invariant |particles| == |before|
        invariant forall k :: 0 <= k < i ==>
                    particles[k] == Stepped(before[k], mouse, width, height, dists[k])
        invariant forall k :: i <= k < |particles| ==> particles[k] == before[k]
      {
        var q := Update(particles[i], mouse, width, height, dists[i]);
        particles := particles[i := q];
      }
      assert particles == StepAll(before, mouse, width, height, dists);
      if mouse == DefaultMouse {
        StepAllAtDefaultMouse(before, width, height, dists);
      }
      links := SelectConnections(particles, pairDists);
    }
  }
}
