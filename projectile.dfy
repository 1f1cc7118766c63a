/** entities/projectile.cpp: a shot that moves in a straight line. Player shots are
    horizontal; opponent shots are aimed at a target point when they are created. */
module Projectiles {
  import opened Basics

  /** Every projectile lives for half a second (entities/projectile.cpp:7, 19). */
  const LIFETIME: real := 0.5

  /** The aimed constructor's velocity for the offset (dx, dy) of the target from the
      spawn point, `dist` being the computed length of that offset: zero when the two
      points are (nearly) the same, otherwise the offset scaled by speed / dist. */
  function AimVelocity(dx: real, dy: real, dist: real, speed: real): (v: Point)
    ensures dist <= 0.001 ==> v == Point(0.0, 0.0)
    ensures dist > 0.001 ==> v.x * dist == dx * speed && v.y * dist == dy * speed
  {
    if dist > 0.001 then Point(dx / dist * speed, dy / dist * speed) else Point(0.0, 0.0)
  }

  /** The velocity of a shot fired from (spawnX, spawnY) at (targetX, targetY), with
      `sqrt` standing for std::sqrt. */
  function AimAt(spawnX: real, spawnY: real, targetX: real, targetY: real, speed: real, sqrt: real -> real): Point
  {
    AimAlong(targetX - spawnX, targetY - spawnY, speed, sqrt)
  }

  /** The aimed velocity for the offset (dx, dy), its length taken with `sqrt`. */
  function AimAlong(dx: real, dy: real, speed: real, sqrt: real -> real): Point
  {
    AimVelocity(dx, dy, sqrt(dx * dx + dy * dy), speed)
  }

  /** An aimed velocity is parallel to the offset towards the target. */
  lemma {:induction false} AimParallel(dx: real, dy: real, dist: real, speed: real)
    requires dist > 0.001
    ensures var v := AimVelocity(dx, dy, dist, speed); v.x * dy == v.y * dx
  {
    var v := AimVelocity(dx, dy, dist, speed);
    assert (v.x * dy) * dist == (v.x * dist) * dy;
    assert (v.y * dx) * dist == (v.y * dist) * dx;
    MulCancel(v.x * dy, v.y * dx, dist);
  }

  /** When `dist` is the length of the offset, an aimed shot moves at exactly `speed`: the
      division by the distance is what normalises the offset. */
  lemma {:induction false} AimMagnitude(dx: real, dy: real, dist: real, speed: real)
    requires dist > 0.001 && dist * dist == dx * dx + dy * dy
    ensures var v := AimVelocity(dx, dy, dist, speed); v.x * v.x + v.y * v.y == speed * speed
  {
    var v := AimVelocity(dx, dy, dist, speed);
    calc {
      (v.x * v.x + v.y * v.y) * (dist * dist);
      (v.x * dist) * (v.x * dist) + (v.y * dist) * (v.y * dist);
      (dx * speed) * (dx * speed) + (dy * speed) * (dy * speed);
      (speed * speed) * (dx * dx + dy * dy);
      (speed * speed) * (dist * dist);
    }
    MulCancel(v.x * v.x + v.y * v.y, speed * speed, dist * dist);
  }

  /** `v` is the velocity of a shot aimed along the offset (dx, dy) at `speed`: for an
      offset longer than 0.001 it has length `speed` and is parallel to the offset,
      otherwise it is zero. */
  ghost predicate AimedAlong(v: Point, dx: real, dy: real, speed: real)
  {
    (dx * dx + dy * dy > 0.000001 ==> v.x * v.x + v.y * v.y == speed * speed && v.x * dy == v.y * dx) &&
    (dx * dx + dy * dy <= 0.000001 ==> v == Point(0.0, 0.0))
  }

  /** With a real square root, the velocity computed for an offset is aimed along it. */
  lemma {:induction false} OffsetSpeed(dx: real, dy: real, speed: real, sqrt: real -> real)
    requires IsSqrt(sqrt)
    ensures AimedAlong(AimAlong(dx, dy, speed, sqrt), dx, dy, speed)
  {
    var dist := sqrt(dx * dx + dy * dy);
    assert dx * dx >= 0.0 && dy * dy >= 0.0;
    assert dist >= 0.0 && dist * dist == dx * dx + dy * dy;
    assert AimAlong(dx, dy, speed, sqrt) == AimVelocity(dx, dy, dist, speed);
    if dist > 0.001 {
      AimMagnitude(dx, dy, dist, speed);
      AimParallel(dx, dy, dist, speed);
    } else {
      assert dist * dist <= 0.001 * dist <= 0.001 * 0.001;
    }
  }

  /** A shot fired at a target more than 0.001 away moves at exactly `speed` towards it;
      one fired at (nearly) its own spawn point stays still. */
  lemma {:induction false} AimAtSpeed(spawnX: real, spawnY: real, targetX: real, targetY: real, speed: real,
                                      sqrt: real -> real)
    requires IsSqrt(sqrt)
    ensures AimedAlong(AimAt(spawnX, spawnY, targetX, targetY, speed, sqrt), targetX - spawnX, targetY - spawnY, speed)
  {
    OffsetSpeed(targetX - spawnX, targetY - spawnY, speed, sqrt);
  }

  /** With a positive speed an aimed shot heads towards the target on each axis: its
      velocity has the sign of the offset, component by component. */
  lemma {:induction false} AimPointsAtTarget(dx: real, dy: real, dist: real, speed: real)
    requires dist > 0.001 && speed > 0.0
    ensures var v := AimVelocity(dx, dy, dist, speed);
            (v.x > 0.0 <==> dx > 0.0) && (v.x < 0.0 <==> dx < 0.0) &&
            (v.y > 0.0 <==> dy > 0.0) && (v.y < 0.0 <==> dy < 0.0)
  {
    var v := AimVelocity(dx, dy, dist, speed);
    SignOfProduct(v.x, dist);
    SignOfProduct(dx, speed);
    SignOfProduct(v.y, dist);
    SignOfProduct(dy, speed);
  }

  /** A hitbox moved by `velocity` for `dt` seconds; its size is kept. */
  function Advance(r: Rect, velocity: Point, dt: real): (moved: Rect)
    ensures moved.w == r.w && moved.h == r.h
    ensures moved.x - r.x == velocity.x * dt && moved.y - r.y == velocity.y * dt
  {
    r.(x := r.x + velocity.x * dt, y := r.y + velocity.y * dt)
  }

  class Projectile {
    /** The hitbox; its corner moves with the shot. */
    var rect: Rect
    const velocity: Point
    const spawnX: real
    const spawnY: real
    /** +1 rightwards, -1 leftwards; the aimed constructor leaves it unset, the model uses 0. */
    const direction: real
    const speed: real
    var age: real
    const lifetime: real
    const isHorizontal: bool

    /** The player's shot (entities/projectile.cpp:5-13). */
    constructor Horizontal(spawnX: real, spawnY: real, direction: real, speed: real)
      ensures rect == Rect(spawnX, spawnY, 2.0, 2.0)
      ensures velocity == Point(direction * speed, 0.0)
      ensures this.spawnX == spawnX && this.spawnY == spawnY
      ensures this.direction == direction && this.speed == speed
      ensures age == 0.0 && lifetime == LIFETIME && isHorizontal
    {
      this.spawnX, this.spawnY := spawnX, spawnY;
      rect := Rect(spawnX, spawnY, 2.0, 2.0);
      this.direction, this.speed := direction, speed;
      age, lifetime := 0.0, LIFETIME;
      velocity := Point(direction * speed, 0.0);
      isHorizontal := true;
    }

    /** An opponent's shot at (targetX, targetY) (entities/projectile.cpp:16-32); `sqrt`
        stands for std::sqrt. */
    constructor Aimed(spawnX: real, spawnY: real, targetX: real, targetY: real, speed: real, sqrt: real -> real)
      ensures rect == Rect(spawnX, spawnY, 4.0, 4.0)
      ensures this.spawnX == spawnX && this.spawnY == spawnY && this.speed == speed
      ensures age == 0.0 && lifetime == LIFETIME && !isHorizontal
      ensures velocity == AimAt(spawnX, spawnY, targetX, targetY, speed, sqrt)
      ensures IsSqrt(sqrt) ==> AimedAlong(velocity, targetX - spawnX, targetY - spawnY, speed)
    {
      this.spawnX, this.spawnY := spawnX, spawnY;
      rect := Rect(spawnX, spawnY, 4.0, 4.0);
      this.speed := speed;
      direction := 0.0;
      age, lifetime := 0.0, LIFETIME;
      isHorizontal := false;
      velocity := AimAt(spawnX, spawnY, targetX, targetY, speed, sqrt);
      if IsSqrt(sqrt) {
        AimAtSpeed(spawnX, spawnY, targetX, targetY, speed, sqrt);
      }
    }

    /** Advance the shot by one step of `dt` seconds (entities/projectile.cpp:34-38). */
    method Update(dt: real)
      modifies this
      ensures age == old(age) + dt
      ensures rect == Advance(old(rect), velocity, dt)
    {
      age := age + dt;
      rect := rect.(x := rect.x + velocity.x * dt, y := rect.y + velocity.y * dt);
    }
  }

  /** `for (auto& p : ps) p.update(dt)`: every shot of a container advances once. */
  method UpdateAll(ps: seq<Projectile>, dt: real)
    requires NoDup(ps)
    modifies set p | p in ps
    ensures forall i :: 0 <= i < |ps| ==>
              ps[i].age == old(ps[i].age) + dt && ps[i].rect == Advance(old(ps[i].rect), ps[i].velocity, dt)
  {
    var i := 0;
    while i < |ps|
      invariant 0 <= i <= |ps|
      invariant forall k :: 0 <= k < i ==>
                  ps[k].age == old(ps[k].age) + dt && ps[k].rect == Advance(old(ps[k].rect), ps[k].velocity, dt)
      invariant forall k :: i <= k < |ps| ==> ps[k].age == old(ps[k].age) && ps[k].rect == old(ps[k].rect)
    {
      ps[i].Update(dt);
      i := i + 1;
    }
  }
}
