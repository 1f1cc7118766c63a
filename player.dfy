/** entities/player.cpp and entities/player.h: the player's ship. Input moves it, turns
    it, switches the speed boost and fires on the press of the space bar; every frame it
    leaves exhaust particles behind it. */
module Players {
  import opened Basics
  import opened Particles
  import opened Projectiles

  datatype Direction = Right | Left

  /** The keyboard state handleInput reads: one flag per scancode it looks at. */
  datatype Keys = Keys(
    c: bool, rshift: bool, lshift: bool,
    up: bool, w: bool, down: bool, s: bool,
    left: bool, a: bool, right: bool, d: bool,
    space: bool)

  const NORMAL_SPEED: real := 200.0
  const BOOST_MULTIPLIER: real := 2.1
  /** handleInput moves by speed times this fixed step, whatever the frame time. */
  const INPUT_STEP: real := 0.016
  const SHOT_SPEED: real := 600.0
  const INITIAL_HEALTH: int := 10

  /** The speed that goes with a boost setting. */
  function SpeedFor(boost: bool): real
  {
    if boost then NORMAL_SPEED * BOOST_MULTIPLIER else NORMAL_SPEED
  }

  /** +1 for a shot to the right, -1 for one to the left. */
  function ShotDirection(facing: Direction): (dir: real)
    ensures dir == 1.0 || dir == -1.0
    ensures dir > 0.0 <==> facing == Right
  {
    if facing == Right then 1.0 else -1.0
  }

  /** The spread of one kind of exhaust particle: offsets `draw % spreadX - spreadX / 2`
      and `draw % spreadY - spreadY / 2` around the rear centre, a speed of `baseSpeed`
      backwards with `draw % jitter - jitter / 2` added on each axis. */
  datatype Plume = Plume(spreadX: nat, spreadY: nat, baseSpeed: real, jitter: nat)

  /** spawnDefaultBoosterParticles (entities/player.cpp:146-152). */
  const DEFAULT_PLUME: Plume := Plume(5, 6, 40.0, 20)
  /** spawnBoosterParticles (entities/player.cpp:123-128). */
  const BOOST_PLUME: Plume := Plume(12, 22, 100.0, 40)
  const BOOST_PARTICLES: nat := 12
  /** rand() calls per exhaust particle: x, y, vx, vy, green and blue. */
  const DRAWS_PER_EXHAUST: nat := 6

  /** One exhaust particle behind a ship whose rear centre is `rear`, built from the six
      draws rng(at) .. rng(at + 5). It is orange-yellow, lands inside the plume's box
      around the rear centre and blows backwards whenever the base speed outweighs the
      jitter. */
  function ExhaustParticle(rear: Point, facing: Direction, plume: Plume, rng: nat -> nat, at: nat): (p: Particle)
    requires plume.spreadX > 0 && plume.spreadY > 0 && plume.jitter > 0
    ensures ColourIn(p, 255, 255, 100, 199, 0, 49)
    ensures rear.x - plume.spreadX as real / 2.0 <= p.x < rear.x + plume.spreadX as real / 2.0
    ensures rear.y - plume.spreadY as real / 2.0 <= p.y < rear.y + plume.spreadY as real / 2.0
    ensures -(plume.jitter as real) / 2.0 <= p.vy < plume.jitter as real / 2.0
    ensures plume.baseSpeed >= plume.jitter as real / 2.0 ==>
              (if facing == Right then p.vx < 0.0 else p.vx >= 0.0)
    ensures p.initialSize == DEFAULT_SIZE && p.lifetime == DEFAULT_LIFETIME
  {
    var half := plume.jitter as real / 2.0;
    var vx := -ShotDirection(facing) * plume.baseSpeed + (RandMod(rng(at + 2), plume.jitter) as real - half);
    Particle(
      rear.x + (RandMod(rng(at), plume.spreadX) as real - plume.spreadX as real / 2.0),
      rear.y + (RandMod(rng(at + 1), plume.spreadY) as real - plume.spreadY as real / 2.0),
      vx,
      RandMod(rng(at + 3), plume.jitter) as real - half,
      255, RandMod(rng(at + 4), 100) + 100, RandMod(rng(at + 5), 50),
      DEFAULT_SIZE, DEFAULT_LIFETIME)
  }

  /** The exhaust particle drawn at each stream position, as a value to hand to a loop. */
  function ExhaustDraw(rear: Point, facing: Direction, plume: Plume, rng: nat -> nat): (draw: nat -> Particle)
    requires plume.spreadX > 0 && plume.spreadY > 0 && plume.jitter > 0
  {
    (at: nat) => ExhaustParticle(rear, facing, plume, rng, at)
  }

  /** The `count` particles `draw` makes one after another from stream position `cursor`
      on, each draw taking the next DRAWS_PER_EXHAUST values. */
  function Drawn(draw: nat -> Particle, cursor: nat, count: nat): (r: seq<Particle>)
    ensures |r| == count
  {
    if count == 0 then []
    else Drawn(draw, cursor, count - 1) + [draw(cursor + DRAWS_PER_EXHAUST * (count - 1))]
  }

  /** The k-th particle drawn is the one made DRAWS_PER_EXHAUST * k values on. */
  lemma {:induction false} DrawnAt(draw: nat -> Particle, cursor: nat, count: nat)
    ensures forall k :: 0 <= k < count ==> Drawn(draw, cursor, count)[k] == draw(cursor + DRAWS_PER_EXHAUST * k)
  {
    if count > 0 {
      DrawnAt(draw, cursor, count - 1);
    }
  }

  /** Every exhaust particle of a plume is flame-coloured: full red, green 100-199, blue
      0-49. */
  lemma {:induction false} ExhaustColours(rear: Point, facing: Direction, plume: Plume, rng: nat -> nat, cursor: nat, count: nat)
    requires plume.spreadX > 0 && plume.spreadY > 0 && plume.jitter > 0
    ensures ColoursIn(Drawn(ExhaustDraw(rear, facing, plume, rng), cursor, count), 0, 255, 255, 100, 199, 0, 49)
  {
    if count > 0 {
      ExhaustColours(rear, facing, plume, rng, cursor, count - 1);
    }
  }

  /** The particle loop of spawnBoosterParticles (entities/player.cpp:121-134): `count`
      particles made by `draw` appended after the existing ones. */
  method AppendDrawn(particles: seq<Particle>, draw: nat -> Particle, cursor: nat, count: nat)
    returns (result: seq<Particle>, next: nat)
    ensures result == particles + Drawn(draw, cursor, count)
    ensures next == cursor + DRAWS_PER_EXHAUST * count
  {
    result, next := particles, cursor;
    var i := 0;
    while i < count
      invariant 0 <= i <= count
      invariant result == particles + Drawn(draw, cursor, i)
      invariant next == cursor + DRAWS_PER_EXHAUST * i
    {
      result := result + [draw(next)];
      next := next + DRAWS_PER_EXHAUST;
      i := i + 1;
    }
  }

  /** Where the keys move a ship at `step` pixels per frame: each held direction moves
      it one step, opposite directions cancel, and the size never changes. */
  function Moved(r: Rect, keys: Keys, step: real): (m: Rect)
    ensures m.w == r.w && m.h == r.h
    ensures var l, rt := keys.left || keys.a, keys.right || keys.d;
            m.x == (if l && !rt then r.x - step else if rt && !l then r.x + step else r.x)
    ensures var u, dn := keys.up || keys.w, keys.down || keys.s;
            m.y == (if u && !dn then r.y - step else if dn && !u then r.y + step else r.y)
  {
    var afterUp := if keys.up || keys.w then r.(y := r.y - step) else r;
    var afterDown := if keys.down || keys.s then afterUp.(y := afterUp.y + step) else afterUp;
    var afterLeft := if keys.left || keys.a then afterDown.(x := afterDown.x - step) else afterDown;
    if keys.right || keys.d then afterLeft.(x := afterLeft.x + step) else afterLeft
  }

  /** The facing after the keys: right wins when both horizontal directions are held,
      and no horizontal key keeps the old facing. */
  function Turned(facing: Direction, keys: Keys): (f: Direction)
    ensures keys.right || keys.d ==> f == Right
    ensures !(keys.right || keys.d) && (keys.left || keys.a) ==> f == Left
    ensures !(keys.right || keys.d || keys.left || keys.a) ==> f == facing
  {
    var afterLeft := if keys.left || keys.a then Left else facing;
    if keys.right || keys.d then Right else afterLeft
  }

  class Player {
    var rect: Rect
    var speed: real
    var facing: Direction
    var spacePressed: bool
    var health: int
    const normalSpeed: real
    const boostMultiplier: real
    var speedBoostActive: bool
    var projectiles: seq<Projectile>

    /** The invariant: the speed always matches the boost setting, health never drops
        below zero and no shot is held twice. */
    predicate Valid()
      reads this
    {
      normalSpeed == NORMAL_SPEED && boostMultiplier == BOOST_MULTIPLIER &&
      speed == SpeedFor(speedBoostActive) &&
      health >= 0 &&
      NoDup(projectiles)
    }

    /** entities/player.cpp:8-16 and the health initialiser of entities/player.h:47. */
    constructor (x: real, y: real, w: real, h: real)
      ensures Valid()
      ensures rect == Rect(x, y, w, h)
      ensures !speedBoostActive && speed == NORMAL_SPEED && facing == Right && !spacePressed
      ensures health == INITIAL_HEALTH && projectiles == []
    {
      rect := Rect(x, y, w, h);
      normalSpeed := NORMAL_SPEED;
      speedBoostActive := false;
      boostMultiplier := BOOST_MULTIPLIER;
      facing := Right;
      spacePressed := false;
      speed := NORMAL_SPEED;
      health := INITIAL_HEALTH;
      projectiles := [];
    }

    predicate IsAlive()
      reads this
    {
      health > 0
    }

    /** entities/player.h:32: lose `damage` health points, never going below zero. */
    method TakeDamage(damage: int)
      requires Valid()
      modifies this
      ensures Valid()
      ensures health == DamagedHealth(old(health), damage)
      ensures damage >= old(health) ==> !IsAlive()
      ensures damage >= 0 ==> health <= old(health)
      ensures rect == old(rect) && projectiles == old(projectiles) && facing == old(facing)
      ensures speed == old(speed) && speedBoostActive == old(speedBoostActive) && spacePressed == old(spacePressed)
    {
      health := health - damage;
      if health < 0 {
        health := 0;
      }
    }

    /** The middle of the edge the ship faces (entities/player.cpp:67-78). */
    function FrontCenter(): (p: Point)
      reads this
      ensures p.y == rect.y + rect.h / 2.0
      ensures facing == Right ==> p.x == rect.x + rect.w
      ensures facing == Left ==> p.x == rect.x
    {
      if facing == Right then Point(rect.x + rect.w, rect.y + rect.h / 2.0)
      else Point(rect.x, rect.y + rect.h / 2.0)
    }

    /** The middle of the opposite edge, where the exhaust leaves
        (entities/player.cpp:113-117, 139-143). */
    function RearCenter(): (p: Point)
      reads this
      ensures p.y == FrontCenter().y
      ensures p.x + FrontCenter().x == 2.0 * rect.x + rect.w
    {
      var front := FrontCenter();
      if facing == Right then front.(x := rect.x) else front.(x := rect.x + rect.w)
    }

    /** Strict overlap with an opponent's hitbox (entities/player.cpp:95-103). */
    predicate IsHit(opponentBounds: Rect)
      reads this
    {
      Overlaps(rect, opponentBounds)
    }

    /** entities/player.cpp:80-83: only the corner moves. */
    method SetPosition(x: real, y: real)
      modifies this
      ensures rect == old(rect).(x := x, y := y)
      ensures speed == old(speed) && facing == old(facing) && health == old(health)
      ensures spacePressed == old(spacePressed) && speedBoostActive == old(speedBoostActive)
      ensures projectiles == old(projectiles)
    {
      rect := rect.(x := x, y := y);
    }

    /** entities/player.cpp:105-108. */
    method SetSpeedBoost(active: bool)
      requires Valid()
      modifies this
      ensures Valid()
      ensures speedBoostActive == active && speed == SpeedFor(active)
      ensures rect == old(rect) && facing == old(facing) && health == old(health)
      ensures spacePressed == old(spacePressed) && projectiles == old(projectiles)
    {
      speedBoostActive := active;
      speed := if active then normalSpeed * boostMultiplier else normalSpeed;
    }

    /** entities/player.cpp:89-93: one new horizontal shot from the front centre, in the
        facing direction, at 600 pixels per second. */
    method Shoot()
      requires Valid()
      modifies this
      ensures Valid()
      ensures |projectiles| == |old(projectiles)| + 1
      ensures projectiles[..|old(projectiles)|] == old(projectiles)
      ensures var p := projectiles[|projectiles| - 1];
              fresh(p) && p.isHorizontal &&
              p.rect == Rect(FrontCenter().x, FrontCenter().y, 2.0, 2.0) &&
              p.velocity == Point(ShotDirection(facing) * SHOT_SPEED, 0.0) &&
              p.age == 0.0 && p.lifetime == LIFETIME
      ensures rect == old(rect) && facing == old(facing) && health == old(health)
      ensures speed == old(speed) && speedBoostActive == old(speedBoostActive) && spacePressed == old(spacePressed)
    {
      var spawn := FrontCenter();
      var dir := if facing == Right then 1.0 else -1.0;
      var p := new Projectile.Horizontal(spawn.x, spawn.y, dir, SHOT_SPEED);
      projectiles := projectiles + [p];
    }

    /** entities/player.cpp:35-61. The boost keys set the speed; the ship then moves by
        speed * 0.016 along every held direction and turns towards the last horizontal
        key checked; a shot is fired only on the frame the space bar goes down. */
    method HandleInput(keys: Keys)
      requires Valid()
      modifies this
      ensures Valid()
      ensures speedBoostActive == (keys.c || keys.rshift || keys.lshift)
      ensures rect == Moved(old(rect), keys, speed * INPUT_STEP)
      ensures facing == Turned(old(facing), keys)
      ensures spacePressed == keys.space
      ensures health == old(health)
      ensures keys.space && !old(spacePressed) ==>
                |projectiles| == |old(projectiles)| + 1 &&
                projectiles[..|old(projectiles)|] == old(projectiles) &&
                var p := projectiles[|projectiles| - 1];
                fresh(p) && p.isHorizontal &&
                p.rect == Rect(FrontCenter().x, FrontCenter().y, 2.0, 2.0) &&
                p.velocity == Point(ShotDirection(facing) * SHOT_SPEED, 0.0)
      ensures !(keys.space && !old(spacePressed)) ==> projectiles == old(projectiles)
    {
      var boostActive := keys.c || keys.rshift || keys.lshift;
      if boostActive != speedBoostActive {
        speedBoostActive := boostActive;
        speed := if boostActive then normalSpeed * boostMultiplier else normalSpeed;
      }
      var currentSpeed := speed * INPUT_STEP;
      Steer(keys, currentSpeed);
      var currentSpaceState := keys.space;
      if currentSpaceState && !spacePressed {
        Shoot();
      }
      spacePressed := currentSpaceState;
    }

    /** The movement part of handleInput (entities/player.cpp:42-55), with the step
        already computed. */
    method Steer(keys: Keys, step: real)
      modifies this
      ensures rect == Moved(old(rect), keys, step)
      ensures facing == Turned(old(facing), keys)
      ensures speed == old(speed) && speedBoostActive == old(speedBoostActive)
      ensures spacePressed == old(spacePressed) && health == old(health)
      ensures projectiles == old(projectiles)
    {
      if keys.up || keys.w {
        rect := rect.(y := rect.y - step);
      }
      if keys.down || keys.s {
        rect := rect.(y := rect.y + step);
      }
      if keys.left || keys.a {
        rect := rect.(x := rect.x - step);
        facing := Left;
      }
      if keys.right || keys.d {
        rect := rect.(x := rect.x + step);
        facing := Right;
      }
    }

    /** spawnDefaultBoosterParticles (entities/player.cpp:138-159): one particle. */
    method SpawnDefaultBoosterParticles(particles: seq<Particle>, rng: nat -> nat, cursor: nat)
      returns (result: seq<Particle>, next: nat)
      ensures result == particles + [ExhaustParticle(RearCenter(), facing, DEFAULT_PLUME, rng, cursor)]
      ensures next == cursor + DRAWS_PER_EXHAUST
    {
      var rear := RearCenter();
      result := particles + [ExhaustParticle(rear, facing, DEFAULT_PLUME, rng, cursor)];
      next := cursor + DRAWS_PER_EXHAUST;
    }

    /** spawnBoosterParticles (entities/player.cpp:110-136): twelve larger, faster
        particles while the boost is on, none otherwise. */
    method SpawnBoosterParticles(particles: seq<Particle>, rng: nat -> nat, cursor: nat)
      returns (result: seq<Particle>, next: nat)
      ensures !speedBoostActive ==> result == particles && next == cursor
      ensures speedBoostActive ==>
                result == particles + Drawn(ExhaustDraw(RearCenter(), facing, BOOST_PLUME, rng), cursor, BOOST_PARTICLES) &&
                next == cursor + DRAWS_PER_EXHAUST * BOOST_PARTICLES
    {
      result, next := particles, cursor;
      if !speedBoostActive {
        return;
      }
      result, next := AppendDrawn(particles, ExhaustDraw(RearCenter(), facing, BOOST_PLUME, rng), cursor, BOOST_PARTICLES);
    }

    /** entities/player.cpp:18-33: the default exhaust particle every frame, plus the
        boost plume while boosting; existing particles are kept. */
    method Update(particles: seq<Particle>, rng: nat -> nat, cursor: nat)
      returns (result: seq<Particle>, next: nat)
      ensures result == particles + [ExhaustParticle(RearCenter(), facing, DEFAULT_PLUME, rng, cursor)] +
                        (if speedBoostActive
                         then Drawn(ExhaustDraw(RearCenter(), facing, BOOST_PLUME, rng), cursor + DRAWS_PER_EXHAUST, BOOST_PARTICLES)
                         else [])
      ensures |result| == |particles| + (if speedBoostActive then 1 + BOOST_PARTICLES else 1)
      ensures ColoursIn(result, |particles|, 255, 255, 100, 199, 0, 49)
      ensures next == cursor + DRAWS_PER_EXHAUST * (|result| - |particles|)
    {
      result, next := SpawnDefaultBoosterParticles(particles, rng, cursor);
      if speedBoostActive {
        ExhaustColours(RearCenter(), facing, BOOST_PLUME, rng, next, BOOST_PARTICLES);
        result, next := SpawnBoosterParticles(result, rng, next);
      }
    }
  }
}
