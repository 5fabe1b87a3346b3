/** One particle of the background constellation: how it is seeded from
    random draws and how it moves in one animation tick (drift, pointer
    repulsion, snap-to-opposite-edge wrap). Coordinates are reals, an
    idealisation of the script's doubles; every `Math.random()` value is a
    parameter in [0, 1) and every `Math.sqrt` result is a parameter that is
    the length of the vector it belongs to. */
module Particles {
  import opened Random

  /** The two colour tags a particle can carry. */
  datatype Color = Gold | Green

  datatype Point = Point(x: real, y: real)

  datatype Particle = Particle(
    x: real, y: real,
    size: real,
    speedX: real, speedY: real,
    opacity: real,
    color: Color)

  /** The seven `Math.random()` values one call of `reset` consumes, in order. */
  datatype Draw = Draw(rx: real, ry: real, rSize: real,
                       rSpeedX: real, rSpeedY: real,
                       rOpacity: real, rColor: real)

  /** Pointer coordinates before any pointer movement has been seen. */
  const DefaultMouse := Point(-1000.0, -1000.0)

  const RepelRadius: real := 120.0
  const RepelStrength: real := 1.5

  predicate ValidDraw(d: Draw)
  {
    IsRandom(d.rx) && IsRandom(d.ry) && IsRandom(d.rSize) &&
    IsRandom(d.rSpeedX) && IsRandom(d.rSpeedY) &&
    IsRandom(d.rOpacity) && IsRandom(d.rColor)
  }

  /** `dist` is the Euclidean length of the vector (dx, dy). */
  predicate IsDistance(dx: real, dy: real, dist: real)
  {
    dist >= 0.0 && dist * dist == dx * dx + dy * dy
  }

  /** The ranges `reset` draws size, speeds and opacity from; these fields
      are never changed afterwards. */
  predicate Attributes(p: Particle)
  {
    0.5 <= p.size < 2.5 &&
    -0.2 <= p.speedX < 0.2 && -0.2 <= p.speedY < 0.2 &&
    0.1 <= p.opacity < 0.6
  }

  /** Only the position differs between `p` and `q`. */
  predicate SameAttributes(p: Particle, q: Particle)
  {
    q.size == p.size && q.speedX == p.speedX && q.speedY == p.speedY &&
    q.opacity == p.opacity && q.color == p.color
  }

  /** A particle freshly seeded on a canvas of the given size. */
  function Reset(width: nat, height: nat, d: Draw): (p: Particle)
    requires ValidDraw(d)
    ensures Attributes(p)
    ensures 0.0 <= p.x && (width > 0 ==> p.x < width as real) && p.x <= width as real
    ensures 0.0 <= p.y && (height > 0 ==> p.y < height as real) && p.y <= height as real
    ensures p.color == Gold <==> d.rColor > 0.7
  {
    Particle(
      Scale(d.rx, width),
      Scale(d.ry, height),
      d.rSize * 2.0 + 0.5,
      (d.rSpeedX - 0.5) * 0.4,
      (d.rSpeedY - 0.5) * 0.4,
      d.rOpacity * 0.5 + 0.1,
      if d.rColor > 0.7 then Gold else Green)
  }

  /** `Math.random() * n`: a position drawn uniformly along a canvas side. */
  function Scale(r: real, n: nat): (v: real)
    requires IsRandom(r)
    ensures 0.0 <= v <= n as real
    ensures n > 0 ==> v < n as real
  {
    ScaledRandom(r, n as real);
    r * n as real
  }

  /** `r * n` for a random `r` lies in [0, n], and below `n` when n > 0. */
  lemma ScaledRandom(r: real, n: real)
    requires IsRandom(r) && n >= 0.0
    ensures 0.0 <= r * n <= n
    ensures n > 0.0 ==> r * n < n
  {
    MulMonotone(n, r, 1.0);
    if n > 0.0 {
      assert r * n < 1.0 * n;
    }
  }

  lemma MulMonotone(a: real, b: real, c: real)
    requires 0.0 <= a && b <= c
    ensures a * b <= a * c
  {
    assert a * c - a * b == a * (c - b);
  }

  /** Euler step with unit time: position += velocity. */
  function Drift(p: Particle): (q: Particle)
    ensures SameAttributes(p, q)
  {
    p.(x := p.x + p.speedX, y := p.y + p.speedY)
  }

  /** `dist` is the pointer's distance from `p`, and it is not zero: the
      script divides by it whenever it is below 120, so a pointer exactly
      on the particle gives no number at all. */
  predicate PointerDistance(p: Particle, mouse: Point, dist: real)
  {
    IsDistance(mouse.x - p.x, mouse.y - p.y, dist) && dist > 0.0
  }

  /** `1 - dist/120` for a pointer inside the repulsion radius. */
  function Force(dist: real): (f: real)
    requires 0.0 < dist < RepelRadius
    ensures 0.0 < f <= 1.0
  {
    (RepelRadius - dist) / RepelRadius
  }

  /** Pointer repulsion: inside the radius the particle is pushed straight
      away from the pointer by `force * 1.5`. */
  function Repel(p: Particle, mouse: Point, dist: real): (q: Particle)
    requires PointerDistance(p, mouse, dist)
    ensures SameAttributes(p, q)
    ensures dist >= RepelRadius ==> q == p
  {
    if dist < RepelRadius then
      var dx := mouse.x - p.x;
      var dy := mouse.y - p.y;
      var force := Force(dist);
      p.(x := p.x - (dx / dist) * force * RepelStrength,
         y := p.y - (dy / dist) * force * RepelStrength)
    else
      p
  }

  /** The edge snap for one coordinate: below 0 goes to `limit`, above
      `limit` goes to 0. */
  function WrapCoord(v: real, limit: nat): (w: real)
    ensures 0.0 <= w <= limit as real
    ensures 0.0 <= v <= limit as real ==> w == v
    ensures v < 0.0 ==> w == limit as real
    ensures v > limit as real ==> w == 0.0
  {
    var v1 := if v < 0.0 then limit as real else v;
    if v1 > limit as real then 0.0 else v1
  }

  function Wrap(p: Particle, width: nat, height: nat): (q: Particle)
    ensures SameAttributes(p, q)
    ensures 0.0 <= q.x <= width as real && 0.0 <= q.y <= height as real
  {
    p.(x := WrapCoord(p.x, width), y := WrapCoord(p.y, height))
  }

  /** What one call of `update` does to a particle; `dist` is the pointer's
      distance from the drifted position. */
  function Stepped(p: Particle, mouse: Point, width: nat, height: nat, dist: real): (q: Particle)
    requires PointerDistance(Drift(p), mouse, dist)
    ensures SameAttributes(p, q)
    ensures 0.0 <= q.x <= width as real && 0.0 <= q.y <= height as real
  {
    Wrap(Repel(Drift(p), mouse, dist), width, height)
  }

  /** `Particle.update`: the position is changed step by step, as the
      script does on the object's fields. */
  method Update(p: Particle, mouse: Point, width: nat, height: nat, dist: real)
    returns (q: Particle)
    requires PointerDistance(Drift(p), mouse, dist)
    ensures q == Stepped(p, mouse, width, height, dist)
  {
    var x := p.x;
    var y := p.y;
    x := x + p.speedX;
    y := y + p.speedY;

    assert Point(x, y) == Position(Drift(p));
    var dx := mouse.x - x;
    var dy := mouse.y - y;
    if dist < RepelRadius {
      var force := (RepelRadius - dist) / RepelRadius;
      x := x - (dx / dist) * force * RepelStrength;
      y := y - (dy / dist) * force * RepelStrength;
    }
    assert Point(x, y) == Position(Repel(Drift(p), mouse, dist));

    if x < 0.0 { x := width as real; }
    if x > width as real { x := 0.0; }
    if y < 0.0 { y := height as real; }
    if y > height as real { y := 0.0; }
    q := p.(x := x, y := y);
  }

  function SquaredDistance(a: Point, b: Point): real
  {
    (a.x - b.x) * (a.x - b.x) + (a.y - b.y) * (a.y - b.y)
  }

  function Position(p: Particle): Point { Point(p.x, p.y) }

  /** Inside the radius, repulsion moves the particle straight away from the
      pointer: its new distance is exactly `dist + force * 1.5`, which is
      larger than `dist`, and it has moved by exactly `force * 1.5 <= 1.5`. */
  lemma RepelPushesAway(p: Particle, mouse: Point, dist: real)
    requires PointerDistance(p, mouse, dist)
    requires dist < RepelRadius
    ensures var q := Repel(p, mouse, dist);
            var s := Force(dist) * RepelStrength;
            && 0.0 < s <= RepelStrength
            && SquaredDistance(Position(q), mouse) == (dist + s) * (dist + s)
            && SquaredDistance(Position(q), mouse) > dist * dist
            && SquaredDistance(Position(q), Position(p)) == s * s
  {
    var q := Repel(p, mouse, dist);
    var dx := mouse.x - p.x;
    var dy := mouse.y - p.y;
    var s := Force(dist) * RepelStrength;
    var k := s / dist;
    assert q.x == p.x - dx * k && q.y == p.y - dy * k;
    // The offset from the pointer is scaled by (1 + k).
    assert mouse.x - q.x == dx * (1.0 + k);
    assert mouse.y - q.y == dy * (1.0 + k);
    ScaledLength(dx, dy, dist, 1.0 + k);
    assert dist * (1.0 + k) == dist + s;
    assert (dist + s) * (dist + s) > dist * dist by {
      assert s > 0.0;
      assert (dist + s) * (dist + s) == dist * dist + s * (2.0 * dist + s);
    }
    // The displacement is the offset scaled by -k.
    assert q.x - p.x == dx * (-k);
    assert q.y - p.y == dy * (-k);
    ScaledLength(dx, dy, dist, -k);
    assert dist * (-k) * (dist * (-k)) == s * s;
  }

  /** Scaling a vector by `c` scales its squared length by `c * c`. */
  lemma ScaledLength(dx: real, dy: real, dist: real, c: real)
    requires IsDistance(dx, dy, dist)
    ensures (dx * c) * (dx * c) + (dy * c) * (dy * c) == (dist * c) * (dist * c)
  {
    calc {
      (dx * c) * (dx * c) + (dy * c) * (dy * c);
      (dx * dx + dy * dy) * (c * c);
      (dist * dist) * (c * c);
      (dist * c) * (dist * c);
    }
  }

  /** A coordinate at least 999.8 away from the pointer along one axis puts
      the pointer outside the repulsion radius. */
  lemma FarAlongAxis(dx: real, dy: real, dist: real)
    requires IsDistance(dx, dy, dist)
    requires dx <= -999.8 || dy <= -999.8
    ensures dist > RepelRadius
  {
    if dx <= -999.8 {
      MulMonotone(-dx, 999.8, -dx);
      MulMonotone(999.8, 999.8, -dx);
    } else {
      MulMonotone(-dy, 999.8, -dy);
      MulMonotone(999.8, 999.8, -dy);
    }
    assert dist * dist > RepelRadius * RepelRadius;
    if dist <= RepelRadius {
      MulMonotone(dist, dist, RepelRadius);
      MulMonotone(RepelRadius, dist, RepelRadius);
      assert false;
    }
  }

  /** With the pointer at its default far-away position, a particle that
      starts at a non-negative position with seeded speeds is never
      repelled: one update is pure drift followed by the wrap. */
  lemma DefaultMouseIsPureDrift(p: Particle, width: nat, height: nat, dist: real)
    requires Attributes(p) && 0.0 <= p.x && 0.0 <= p.y
    requires PointerDistance(Drift(p), DefaultMouse, dist)
    ensures dist > RepelRadius
    ensures Stepped(p, DefaultMouse, width, height, dist) == Wrap(Drift(p), width, height)
  {
    FarAlongAxis(DefaultMouse.x - Drift(p).x, DefaultMouse.y - Drift(p).y, dist);
  }
}
