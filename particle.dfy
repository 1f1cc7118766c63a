/** Particles are cosmetic: the model keeps what an emitter hands to the Particle
    constructor (spawn point, velocity, colour, size, lifetime), which is all that the
    player's exhaust and the opponents' explosions decide. Their motion, growth and fade
    are not modelled. */
module Particles {

  /** The arguments of `Particle(x, y, velocityX, velocityY, r, g, b, initialSize, lifetime)`. */
  datatype Particle = Particle(
    x: real, y: real,
    vx: real, vy: real,
    r: int, g: int, b: int,
    initialSize: real, lifetime: real)

  /** Default size and lifetime of the Particle constructor (entities/particle.h). */
  const DEFAULT_SIZE: real := 2.0
  const DEFAULT_LIFETIME: real := 0.2

  /** Every colour channel of `p` lies in its inclusive range. */
  predicate ColourIn(p: Particle, rMin: int, rMax: int, gMin: int, gMax: int, bMin: int, bMax: int)
  {
    rMin <= p.r <= rMax && gMin <= p.g <= gMax && bMin <= p.b <= bMax
  }

  /** All particles of `ps` from index `from` on have colours in the given ranges. */
  predicate ColoursIn(ps: seq<Particle>, from: nat, rMin: int, rMax: int, gMin: int, gMax: int, bMin: int, bMax: int)
  {
    forall k :: from <= k < |ps| ==> ColourIn(ps[k], rMin, rMax, gMin, gMax, bMin, bMax)
  }

  /** All particles of `ps` from index `from` on start at (cx, cy). */
  predicate StartAt(ps: seq<Particle>, from: nat, cx: real, cy: real)
  {
    forall k :: from <= k < |ps| ==> ps[k].x == cx && ps[k].y == cy
  }
}
