/** The files under entities/opponents: the three kinds of opponent. BaseOpponent's state and
    shared behaviour live in one class; `kind` selects the update rule and the
    explosion of BasicOpponent, AggressiveOpponent or SniperOpponent. */
module Opponents {
  import opened Basics
  import opened Particles
  import opened Projectiles

  datatype Kind = BasicOpponent | AggressiveOpponent | SniperOpponent

  /** M_PI. */
  const PI: real := 3.141592653589793

  /** How an explosion looks: particle count, angle jitter, speed range, inclusive colour
      ranges, and the two trailing arguments every explosion passes to the Particle
      constructor (`life` lands in its initial-size slot and `size` in its lifetime slot,
      as entities/opponents/base_opponent.cpp:59 passes them). BasicOpponent and
      AggressiveOpponent write these numbers into their own explode bodies; the model
      gathers them in the same record. */
  datatype ExplosionConfig = ExplosionConfig(
    numParticles: nat, angleJitter: real, speedMin: real, speedMax: real,
    rMin: int, rMax: int, gMin: int, gMax: int, bMin: int, bMax: int,
    life: real, size: real)

  /** entities/opponents/basic_opponent.cpp:27-43. */
  const BASIC_EXPLOSION: ExplosionConfig := ExplosionConfig(120, 0.2, 80.0, 229.0, 155, 254, 55, 154, 0, 49, 0.02, 2.8)
  /** entities/opponents/aggressive_opponent.cpp:79-97. */
  const AGGRESSIVE_EXPLOSION: ExplosionConfig := ExplosionConfig(50, 0.5, 60.0, 179.0, 100, 199, 0, 49, 155, 254, 0.2, 1.9)
  /** entities/opponents/sniper_opponent.cpp:23-34. */
  const SNIPER_EXPLOSION: ExplosionConfig := ExplosionConfig(345, 0.2, 70.0, 180.0, 55, 154, 155, 254, 55, 104, 0.0001, 1.35)

  /** rand() calls per explosion particle: angle jitter, speed, red, green, blue. */
  const DRAWS_PER_SPARK: nat := 5

  function ExplosionOf(kind: Kind): (cfg: ExplosionConfig)
    ensures cfg.numParticles > 0
    ensures cfg.rMin <= cfg.rMax && cfg.gMin <= cfg.gMax && cfg.bMin <= cfg.bMax
    ensures 0 <= cfg.rMin && cfg.rMax <= 255 && 0 <= cfg.gMin && cfg.gMax <= 255 && 0 <= cfg.bMin && cfg.bMax <= 255
  {
    match kind
    case BasicOpponent => BASIC_EXPLOSION
    case AggressiveOpponent => AGGRESSIVE_EXPLOSION
    case SniperOpponent => SNIPER_EXPLOSION
  }

  /** The speed of one explosion particle from one draw: an integer draw for the basic
      and aggressive kinds, a fraction of the configured range for the sniper. */
  function SparkSpeed(kind: Kind, draw: nat): (speed: real)
    requires draw <= RAND_MAX
    ensures ExplosionOf(kind).speedMin <= speed <= ExplosionOf(kind).speedMax
  {
    match kind
    case BasicOpponent => RandMod(draw, 150) as real + 80.0
    case AggressiveOpponent => RandMod(draw, 120) as real + 60.0
    case SniperOpponent =>
      var cfg := ExplosionOf(kind);
      FractionScaled(draw, cfg.speedMax - cfg.speedMin);
      cfg.speedMin + draw as real / RAND_MAX as real * (cfg.speedMax - cfg.speedMin)
  }

  /** A draw over RAND_MAX scaled by a non-negative width stays within the width. */
  lemma FractionScaled(draw: nat, width: real)
    requires draw <= RAND_MAX && width >= 0.0
    ensures 0.0 <= draw as real / RAND_MAX as real * width <= width
  {
    var f := draw as real / RAND_MAX as real;
    assert 0.0 <= f <= 1.0;
    assert f * width <= 1.0 * width;
  }

  /** Particle `i` of an explosion centred on `center`, built from the draws rng(at) ..
      rng(at + 4); `sin` and `cos` stand for the C library functions. */
  function Spark(kind: Kind, center: Point, i: nat, rng: nat -> nat, at: nat,
                 sin: real -> real, cos: real -> real): (p: Particle)
    requires IsRandStream(rng)
    ensures var cfg := ExplosionOf(kind);
            ColourIn(p, cfg.rMin, cfg.rMax, cfg.gMin, cfg.gMax, cfg.bMin, cfg.bMax)
    ensures p.x == center.x && p.y == center.y
    ensures p.initialSize == ExplosionOf(kind).life && p.lifetime == ExplosionOf(kind).size
  {
    var cfg := ExplosionOf(kind);
    var angle := (i as real / cfg.numParticles as real) * 2.0 * PI + (rng(at) as real / RAND_MAX as real) * cfg.angleJitter;
    var speed := SparkSpeed(kind, rng(at + 1));
    Particle(center.x, center.y, cos(angle) * speed, sin(angle) * speed,
             cfg.rMin + RandMod(rng(at + 2), cfg.rMax - cfg.rMin + 1),
             cfg.gMin + RandMod(rng(at + 3), cfg.gMax - cfg.gMin + 1),
             cfg.bMin + RandMod(rng(at + 4), cfg.bMax - cfg.bMin + 1),
             cfg.life, cfg.size)
  }

  /** BaseOpponent::isOnScreen and AggressiveOpponent::isOnScreen: the x coordinate lies
      in the camera's window, both ends included; y plays no part. */
  predicate IsOnScreen(objX: real, objY: real, cameraX: real, screenWidth: int)
  {
    objX >= cameraX && objX <= cameraX + screenWidth as real
  }

  /** Both edges of the window count as on screen, and the height never matters. */
  lemma OnScreenInclusive(objY: real, otherY: real, cameraX: real, screenWidth: int)
    requires screenWidth >= 0
    ensures IsOnScreen(cameraX, objY, cameraX, screenWidth)
    ensures IsOnScreen(cameraX + screenWidth as real, objY, cameraX, screenWidth)
    ensures forall x :: IsOnScreen(x, objY, cameraX, screenWidth) == IsOnScreen(x, otherY, cameraX, screenWidth)
  {
  }

  /** The aggressive opponent's aim point on the x axis: the player's x plus an error of
      rand() % 200 - 100 (entities/opponents/aggressive_opponent.cpp:30). */
  function ChaseTargetX(playerX: real, draw: nat): (x: real)
    ensures playerX - 100.0 <= x <= playerX + 99.0
  {
    playerX + (RandMod(draw, 200) as real - 100.0)
  }

  /** One chase step along an axis: move `step` towards the target unless within one
      pixel of it. */
  function StepToward(pos: real, target: real, step: real): (r: real)
    ensures -1.0 <= target - pos <= 1.0 ==> r == pos
    ensures target - pos > 1.0 ==> r == pos + step
    ensures target - pos < -1.0 ==> r == pos - step
  {
    var gap := target - pos;
    if (if gap < 0.0 then -gap else gap) > 1.0 then pos + (if gap > 0.0 then 1.0 else -1.0) * step
    else pos
  }

  /** A step no longer than the gap brings the opponent that much closer without passing
      the target. */
  lemma {:induction false} StepTowardCloser(pos: real, target: real, step: real)
    requires 0.0 < step
    requires target - pos > 1.0 || target - pos < -1.0
    requires step <= (if target >= pos then target - pos else pos - target)
    ensures var r := StepToward(pos, target, step);
            var before := if target >= pos then target - pos else pos - target;
            var after := if target >= r then target - r else r - target;
            after == before - step
  {
    var r := StepToward(pos, target, step);
    if target - pos > 1.0 {
      assert r == pos + step;
    } else {
      assert r == pos - step;
    }
  }

  class Opponent {
    var rect: Rect
    const kind: Kind
    const speed: real
    const angularSpeed: real
    const amplitude: real
    var angle: real
    const startX: real
    /** Set by the basic opponent only. */
    const startY: real
    /** The sniper's phase speed and random phase offset. */
    const oscillationSpeed: real
    const oscillationOffset: real
    const fireAccuracy: real
    var health: int
    var projectiles: seq<Projectile>
    var fireTimer: real
    const fireInterval: real
    const scoreVal: int
    const explosion: ExplosionConfig

    /** The per-kind constants of the three constructors, a health that never drops below
        zero, shots held once each, and the basic opponent holding no shots at all. */
    predicate Valid()
      reads this
    {
      health >= 0 &&
      NoDup(projectiles) &&
      explosion == ExplosionOf(kind) &&
      match kind
      case BasicOpponent =>
        speed == 30.0 && angularSpeed == 1.5 && amplitude == 80.0 && fireInterval == 0.0 &&
        scoreVal == 300 && projectiles == []
      case AggressiveOpponent =>
        speed == 70.0 && angularSpeed == 0.0 && amplitude == 0.0 && fireInterval == 1.8 && scoreVal == 100
      case SniperOpponent =>
        speed == 20.0 && angularSpeed == 0.8 && amplitude == 60.0 && oscillationSpeed == 1.0 &&
        0.0 <= oscillationOffset <= 2.0 * PI && fireInterval == 4.0 && fireAccuracy == 0.1 && scoreVal == 100
    }

    /** BasicOpponent (entities/opponents/basic_opponent.cpp:8-17 on top of
        entities/opponents/base_opponent.cpp:7-10). */
    constructor Basic(x: real, y: real, w: real, h: real)
      ensures Valid() && kind == BasicOpponent
      ensures rect == Rect(x, y, w, h) && startX == x && startY == y
      ensures angle == 0.0 && health == 3 && fireTimer == 0.0 && projectiles == []
      ensures speed == 30.0 && angularSpeed == 1.5 && amplitude == 80.0 && scoreVal == 300
    {
      rect := Rect(x, y, w, h);
      kind := BasicOpponent;
      angle, startX, health, fireTimer := 0.0, x, 3, 0.0;
      projectiles := [];
      speed, angularSpeed, amplitude := 30.0, 1.5, 80.0;
      startY := y;
      fireInterval := 0.0;
      scoreVal := 300;
      explosion := BASIC_EXPLOSION;
    }

    /** AggressiveOpponent (entities/opponents/aggressive_opponent.cpp:9-24). */
    constructor Aggressive(x: real, y: real, w: real, h: real)
      ensures Valid() && kind == AggressiveOpponent
      ensures rect == Rect(x, y, w, h) && startX == x
      ensures angle == 0.0 && health == 2 && fireTimer == 0.0 && projectiles == []
      ensures speed == 70.0 && fireInterval == 1.8 && scoreVal == 100
    {
      rect := Rect(x, y, w, h);
      kind := AggressiveOpponent;
      angle, startX, health, fireTimer := 0.0, x, 3, 0.0;
      projectiles := [];
      speed, angularSpeed, amplitude := 70.0, 0.0, 0.0;
      fireInterval := 1.8;
      health := 2;
      scoreVal := 100;
      explosion := AGGRESSIVE_EXPLOSION;
    }

    /** SniperOpponent (entities/opponents/sniper_opponent.cpp:10-35); `offsetDraw` is
        the rand() result that sets the phase offset draw / RAND_MAX * 2 * pi. */
    constructor Sniper(x: real, y: real, w: real, h: real, offsetDraw: nat)
      requires offsetDraw <= RAND_MAX
      ensures Valid() && kind == SniperOpponent
      ensures rect == Rect(x, y, w, h) && startX == x
      ensures angle == 0.0 && health == 1 && fireTimer == 0.0 && projectiles == []
      ensures speed == 20.0 && amplitude == 60.0 && fireInterval == 4.0 && scoreVal == 100
      ensures oscillationOffset == offsetDraw as real / RAND_MAX as real * 2.0 * PI
      ensures explosion == SNIPER_EXPLOSION
    {
      rect := Rect(x, y, w, h);
      kind := SniperOpponent;
      angle, startX, health, fireTimer := 0.0, x, 3, 0.0;
      projectiles := [];
      speed, angularSpeed, amplitude := 20.0, 0.8, 60.0;
      oscillationSpeed := 1.0;
      FractionScaled(offsetDraw, 2.0 * PI);
      oscillationOffset := offsetDraw as real / RAND_MAX as real * 2.0 * PI;
      fireInterval := 4.0;
      fireAccuracy := 0.1;
      health := 1;
      scoreVal := 100;
      explosion := SNIPER_EXPLOSION;
    }

    predicate IsAlive()
      reads this
    {
      health > 0
    }

    /** The opponent's hit test against a projectile's hitbox. */
    predicate IsHit(projectileBounds: Rect)
      reads this
    {
      Overlaps(rect, projectileBounds)
    }

    /** The centre of the hitbox, where an explosion starts. */
    function Center(): (c: Point)
      reads this
      ensures c.x - rect.x == rect.w / 2.0 && c.y - rect.y == rect.h / 2.0
    {
      Point(rect.x + rect.w / 2.0, rect.y + rect.h / 2.0)
    }

    /** entities/opponents/base_opponent.cpp:12-15. */
    method TakeDamage(damage: int)
      requires Valid()
      modifies this
      ensures Valid()
      ensures health == DamagedHealth(old(health), damage)
      ensures damage >= old(health) ==> !IsAlive()
      ensures rect == old(rect) && angle == old(angle) && fireTimer == old(fireTimer)
      ensures projectiles == old(projectiles)
    {
      health := health - damage;
      if health < 0 {
        health := 0;
      }
    }

    /** explode (entities/opponents/base_opponent.cpp:43-61, basic_opponent.cpp:27-44,
        aggressive_opponent.cpp:79-97): appends the kind's number of particles, all from
        the centre, each coloured within the kind's ranges, and keeps the existing ones. */
    method Explode(particles: seq<Particle>, rng: nat -> nat, cursor: nat, sin: real -> real, cos: real -> real)
      returns (result: seq<Particle>, next: nat)
      requires Valid()
      requires IsRandStream(rng)
      ensures |result| == |particles| + explosion.numParticles
      ensures result[..|particles|] == particles
      ensures forall k :: 0 <= k < explosion.numParticles ==>
                result[|particles| + k] == Spark(kind, Center(), k, rng, cursor + DRAWS_PER_SPARK * k, sin, cos)
      ensures ColoursIn(result, |particles|, explosion.rMin, explosion.rMax, explosion.gMin, explosion.gMax, explosion.bMin, explosion.bMax)
      ensures StartAt(result, |particles|, Center().x, Center().y)
      ensures next == cursor + DRAWS_PER_SPARK * explosion.numParticles
    {
      var center := Center();
      result, next := particles, cursor;
      var i := 0;
      while i < explosion.numParticles
        invariant 0 <= i <= explosion.numParticles
        invariant |result| == |particles| + i && result[..|particles|] == particles
        invariant forall k :: 0 <= k < i ==>
                    result[|particles| + k] == Spark(kind, center, k, rng, cursor + DRAWS_PER_SPARK * k, sin, cos)
        invariant next == cursor + DRAWS_PER_SPARK * i
        invariant ColoursIn(result, |particles|, explosion.rMin, explosion.rMax, explosion.gMin, explosion.gMax, explosion.bMin, explosion.bMax)
        invariant StartAt(result, |particles|, center.x, center.y)
      {
        var spark := Spark(kind, center, i, rng, next, sin, cos);
        result := result + [spark];
        next := next + DRAWS_PER_SPARK;
        i := i + 1;
      }
    }
  
    /** BasicOpponent::update (entities/opponents/basic_opponent.cpp:19-25): fall at 30
        pixels per second and swing 80 pixels either side of the starting x; never fires. */
    method UpdateBasic(dt: real, sin: real -> real)
      requires Valid() && kind == BasicOpponent && IsSine(sin)
      modifies this
      ensures Valid()
      ensures old(health) <= 0 ==> rect == old(rect) && angle == old(angle)
      ensures old(health) > 0 ==>
                angle == old(angle) + 1.5 * dt &&
                rect == old(rect).(x := startX + sin(angle) * 80.0, y := old(rect.y) + 30.0 * dt) &&
                -80.0 <= rect.x - startX <= 80.0
      ensures health == old(health) && fireTimer == old(fireTimer) && projectiles == old(projectiles)
    {
      if health <= 0 {
        return;
      }
      rect := rect.(y := rect.y + speed * dt);
      angle := angle + angularSpeed * dt;
      rect := rect.(x := startX + sin(angle) * amplitude);
    }

    /** The firing step shared by the sniper and the aggressive opponent
        (entities/opponents/sniper_opponent.cpp:45-57,
        entities/opponents/aggressive_opponent.cpp:46-61): the fire timer grows by dt,
        and when the centre is on screen and the timer has reached the fire interval one
        shot aimed at the target leaves the centre and the timer restarts. */
    method TryFire(dt: real, targetX: real, targetY: real, shotSpeed: real, cameraX: real, screenWidth: int, sqrt: real -> real)
      requires Valid() && kind != BasicOpponent
      modifies this
      ensures Valid()
      ensures var cx, cy := rect.x + rect.w / 2.0, rect.y + rect.h / 2.0;
              if IsOnScreen(cx, rect.y, cameraX, screenWidth) && old(fireTimer) + dt >= fireInterval then
                fireTimer == 0.0 &&
                |projectiles| == |old(projectiles)| + 1 && projectiles[..|old(projectiles)|] == old(projectiles) &&
                var p := projectiles[|projectiles| - 1];
                fresh(p) && !p.isHorizontal && p.age == 0.0 &&
                p.rect == Rect(cx, cy, 4.0, 4.0) && p.velocity == AimAt(cx, cy, targetX, targetY, shotSpeed, sqrt)
              else
                fireTimer == old(fireTimer) + dt && projectiles == old(projectiles)
      ensures rect == old(rect) && angle == old(angle) && health == old(health)
    {
      fireTimer := fireTimer + dt;
      var opponentVisible := IsOnScreen(rect.x + rect.w / 2.0, rect.y, cameraX, screenWidth);
      if opponentVisible && fireTimer >= fireInterval {
        var p := new Projectile.Aimed(rect.x + rect.w / 2.0, rect.y + rect.h / 2.0, targetX, targetY, shotSpeed, sqrt);
        projectiles := projectiles + [p];
        fireTimer := 0.0;
      }
    }

    /** SniperOpponent::update (entities/opponents/sniper_opponent.cpp:37-58): fall at 20
        pixels per second, swing 60 pixels either side of the starting x, and every four
        seconds while visible fire at the player's exact position at 1800 pixels per
        second. */
    method UpdateSniper(dt: real, playerPos: Point, cameraX: real, screenWidth: int, sin: real -> real, sqrt: real -> real)
      requires Valid() && kind == SniperOpponent && IsSine(sin)
      modifies this
      ensures Valid()
      ensures old(health) <= 0 ==>
                rect == old(rect) && angle == old(angle) && fireTimer == old(fireTimer) && projectiles == old(projectiles)
      ensures old(health) > 0 ==>
                angle == old(angle) + 1.0 * dt &&
                rect == old(rect).(x := startX + sin(angle + oscillationOffset) * 60.0, y := old(rect.y) + 20.0 * dt) &&
                -60.0 <= rect.x - startX <= 60.0
      ensures old(health) > 0 ==>
                var cx, cy := rect.x + rect.w / 2.0, rect.y + rect.h / 2.0;
                if IsOnScreen(cx, rect.y, cameraX, screenWidth) && old(fireTimer) + dt >= 4.0 then
                  fireTimer == 0.0 &&
                  |projectiles| == |old(projectiles)| + 1 && projectiles[..|old(projectiles)|] == old(projectiles) &&
                  var p := projectiles[|projectiles| - 1];
                  fresh(p) && !p.isHorizontal && p.age == 0.0 &&
                  p.rect == Rect(cx, cy, 4.0, 4.0) && p.velocity == AimAt(cx, cy, playerPos.x, playerPos.y, 1800.0, sqrt)
                else
                  fireTimer == old(fireTimer) + dt && projectiles == old(projectiles)
      ensures health == old(health)
    {
      if health <= 0 {
        return;
      }
      rect := rect.(y := rect.y + speed * dt);
      angle := angle + oscillationSpeed * dt;
      rect := rect.(x := startX + sin(angle + oscillationOffset) * amplitude);
      TryFire(dt, playerPos.x, playerPos.y, 1800.0, cameraX, screenWidth, sqrt);
    }

    /** The chase step of the aggressive opponent (entities/opponents/aggressive_opponent.cpp:32-43):
        each axis moves `speed * dt` towards the target unless within one pixel of it. */
    method Chase(targetX: real, targetY: real, dt: real)
      modifies this
      ensures rect == old(rect).(x := StepToward(old(rect.x), targetX, speed * dt),
                                 y := StepToward(old(rect.y), targetY, speed * dt))
      ensures health == old(health) && projectiles == old(projectiles) && fireTimer == old(fireTimer)
      ensures angle == old(angle)
    {
      var dx := targetX - rect.x;
      var dy := targetY - rect.y;
      if (if dx < 0.0 then -dx else dx) > 1.0 {
        rect := rect.(x := rect.x + (if dx > 0.0 then 1.0 else -1.0) * speed * dt);
      }
      if (if dy < 0.0 then -dy else dy) > 1.0 {
        rect := rect.(y := rect.y + (if dy > 0.0 then 1.0 else -1.0) * speed * dt);
      }
    }

    /** AggressiveOpponent::update (entities/opponents/aggressive_opponent.cpp:26-66):
        step towards a point near the player at 70 pixels per second on each axis, every
        1.8 seconds while visible fire at that point at 300 pixels per second, then
        advance all of its own shots. Consumes one rand() draw, `draw`. */
    method UpdateAggressive(dt: real, playerPos: Point, cameraX: real, screenWidth: int, sqrt: real -> real, draw: nat)
      requires Valid() && kind == AggressiveOpponent
      modifies this, projectiles
      ensures Valid()
      ensures old(health) <= 0 ==>
                rect == old(rect) && fireTimer == old(fireTimer) && projectiles == old(projectiles) &&
                forall p :: p in projectiles ==> p.age == old(p.age) && p.rect == old(p.rect)
      ensures old(health) > 0 ==>
                var tx := ChaseTargetX(playerPos.x, draw);
                rect == old(rect).(x := StepToward(old(rect.x), tx, 70.0 * dt),
                                   y := StepToward(old(rect.y), playerPos.y, 70.0 * dt))
      ensures old(health) > 0 ==>
                var tx := ChaseTargetX(playerPos.x, draw);
                var cx, cy := rect.x + rect.w / 2.0, rect.y + rect.h / 2.0;
                if IsOnScreen(cx, rect.y, cameraX, screenWidth) && old(fireTimer) + dt >= 1.8 then
                  fireTimer == 0.0 &&
                  |projectiles| == |old(projectiles)| + 1 && projectiles[..|old(projectiles)|] == old(projectiles) &&
                  var p := projectiles[|projectiles| - 1];
                  fresh(p) && !p.isHorizontal && p.age == dt &&
                  p.rect == Advance(Rect(cx, cy, 4.0, 4.0), p.velocity, dt) &&
                  p.velocity == AimAt(cx, cy, tx, playerPos.y, 300.0, sqrt)
                else
                  fireTimer == old(fireTimer) + dt && projectiles == old(projectiles)
      ensures old(health) > 0 ==>
                forall i :: 0 <= i < |old(projectiles)| ==>
                  old(projectiles)[i].age == old(projectiles[i].age) + dt &&
                  old(projectiles)[i].rect == Advance(old(projectiles[i].rect), old(projectiles)[i].velocity, dt)
      ensures health == old(health) && angle == old(angle)
    {
      if health <= 0 {
        return;
      }
      var targetX := playerPos.x + (RandMod(draw, 200) as real - 100.0);
      var targetY := playerPos.y;
      Chase(targetX, targetY, dt);
      TryFire(dt, targetX, targetY, 300.0, cameraX, screenWidth, sqrt);
      UpdateAll(projectiles, dt);
    }
  
    /** The common update(dt, playerPos, cameraX, screenWidth) entry point: each kind's
        own rule. Only an alive aggressive opponent consumes a rand() draw, rng(cursor);
        the result is the position of the next unused draw. */
    method Update(dt: real, playerPos: Point, cameraX: real, screenWidth: int,
                  sin: real -> real, sqrt: real -> real, rng: nat -> nat, cursor: nat)
      returns (next: nat)
      requires Valid() && IsSine(sin)
      modifies this, projectiles
      ensures Valid()
      ensures health == old(health)
      ensures next == (if kind == AggressiveOpponent && old(health) > 0 then cursor + 1 else cursor)
      ensures old(health) <= 0 ==> rect == old(rect) && fireTimer == old(fireTimer) && projectiles == old(projectiles)
      ensures kind == BasicOpponent ==> projectiles == []
      ensures forall p :: p in projectiles ==> p in old(projectiles) || fresh(p)
    {
      next := cursor;
      match kind
      case BasicOpponent =>
        UpdateBasic(dt, sin);
      case SniperOpponent =>
        UpdateSniper(dt, playerPos, cameraX, screenWidth, sin, sqrt);
      case AggressiveOpponent =>
        if health > 0 {
          next := cursor + 1;
        }
        UpdateAggressive(dt, playerPos, cameraX, screenWidth, sqrt, rng(cursor));
    }
  }
}
