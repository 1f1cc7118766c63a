/** entities/health_item.cpp: a pick-up that falls, possibly stops at a random height,
    and once it has hit the ground blinks a fixed number of times before it expires. */
module HealthItems {
  import opened Basics

  datatype HealthItemType = PlayerHealth | WorldHealth

  /** Length of one blink phase, in seconds (entities/health_item.cpp:4). */
  const BLINK_DURATION: real := 0.2
  /** Number of blinks; each has an on and an off phase (entities/health_item.h:36). */
  const MAX_BLINKS: int := 3
  /** Falling speed in pixels per second (entities/health_item.cpp:7). */
  const FALL_SPEED: real := 50.0

  class HealthItem {
    var rect: Rect
    const kind: HealthItemType
    const textureKey: string
    const velocityY: real
    var hitGround: bool
    var blinking: bool
    var blinkTimer: real
    var blinkCount: int
    /** Whether this item stops in mid-air; decided once, when it is created. */
    const doesStop: bool
    var hasStopped: bool
    /** The height at which a stopping item stops; left unset when it does not stop. */
    const randomStopY: int

    /** The invariant every operation keeps: only an item chosen to stop ever stops, its
        stop height is in [200, 300], it blinks only after hitting the ground, and the
        blink count is never negative. */
    predicate Valid()
      reads this
    {
      velocityY == FALL_SPEED &&
      (hasStopped ==> doesStop) &&
      (doesStop ==> 200 <= randomStopY <= 300) &&
      (blinking ==> hitGround) &&
      blinkCount >= 0
    }

    /** entities/health_item.cpp:6-12. `stopDraw` and `heightDraw` are the two rand()
        results the constructor consumes; the second is used only when the item stops.
        The stopping chance is rand() / (RAND_MAX + 1) < 0.25, i.e. the first draw is below
        a quarter of 2^31. */
    constructor (x: real, y: real, w: real, h: real, kind: HealthItemType, textureKey: string,
                 stopDraw: nat, heightDraw: nat)
      requires stopDraw <= RAND_MAX
      ensures Valid()
      ensures rect == Rect(x, y, w, h) && this.kind == kind && this.textureKey == textureKey
      ensures !hitGround && !blinking && blinkTimer == 0.0 && blinkCount == 0 && !hasStopped
      ensures doesStop <==> stopDraw < 536870912
      ensures doesStop ==> randomStopY == 200 + RandMod(heightDraw, 101)
    {
      rect := Rect(x, y, w, h);
      this.kind := kind;
      this.textureKey := textureKey;
      velocityY := FALL_SPEED;
      hitGround, blinking := false, false;
      blinkTimer, blinkCount := 0.0, 0;
      hasStopped := false;
      var chance := stopDraw as real / (RAND_MAX as real + 1.0);
      doesStop := chance < 0.25;
      if chance < 0.25 {
        randomStopY := 200 + RandMod(heightDraw, 101);
      }
    }

    /** entities/health_item.cpp:14-31. A blinking item stays put while its timer counts
        phases; otherwise an item that has not stopped falls by 50 * dt, and an item due
        to stop sets its flag when it reaches the stop height (it still moves in that
        step). A stopped item never moves again. */
    method Update(dt: real)
      requires Valid()
      modifies this
      ensures Valid()
      ensures blinking == old(blinking) && hitGround == old(hitGround)
      ensures old(blinking) ==>
                rect == old(rect) && hasStopped == old(hasStopped) &&
                (if old(blinkTimer) + dt >= BLINK_DURATION
                 then blinkTimer == 0.0 && blinkCount == old(blinkCount) + 1
                 else blinkTimer == old(blinkTimer) + dt && blinkCount == old(blinkCount))
      ensures !old(blinking) && !old(hasStopped) ==>
                rect == old(rect).(y := old(rect.y) + FALL_SPEED * dt) &&
                hasStopped == (doesStop && old(rect.y) >= randomStopY as real) &&
                blinkTimer == old(blinkTimer) && blinkCount == old(blinkCount)
      ensures !old(blinking) && old(hasStopped) ==>
                rect == old(rect) && hasStopped &&
                blinkTimer == old(blinkTimer) && blinkCount == old(blinkCount)
    {
      if blinking {
        blinkTimer := blinkTimer + dt;
        if blinkTimer >= BLINK_DURATION {
          blinkTimer := 0.0;
          blinkCount := blinkCount + 1;
        }
      } else {
        if !hasStopped {
          if doesStop {
            if rect.y >= randomStopY as real {
              hasStopped := true;
            }
          }
          rect := rect.(y := rect.y + velocityY * dt);
        }
      }
    }

    /** Alive until both phases of all three blinks have passed (entities/health_item.cpp:41-43). */
    predicate IsAlive()
      reads this
    {
      blinkCount < MAX_BLINKS * 2
    }

    /** The draw alpha (entities/health_item.cpp:49-53): opaque when not blinking; while
        blinking, opaque in the first half of each phase and invisible in the second. */
    function BlinkAlpha(): (a: real)
      reads this
      ensures a == 0.0 || a == 255.0
      ensures !blinking ==> a == 255.0
      ensures blinking && 0.0 <= blinkTimer < BLINK_DURATION / 2.0 ==> a == 255.0
      ensures blinking && BLINK_DURATION / 2.0 <= blinkTimer < BLINK_DURATION ==> a == 0.0
    {
      if !blinking then 255.0
      else if TruncToInt(blinkTimer / (BLINK_DURATION / 2.0)) % 2 == 0 then 255.0 else 0.0
    }

    /** entities/health_item.cpp:55-60: the item has landed; it starts blinking afresh,
        alive and fully visible. */
    method StartBlinking()
      requires Valid()
      modifies this
      ensures Valid()
      ensures hitGround && blinking && blinkTimer == 0.0 && blinkCount == 0
      ensures rect == old(rect) && hasStopped == old(hasStopped)
      ensures IsAlive() && BlinkAlpha() == 255.0
    {
      hitGround := true;
      blinking := true;
      blinkTimer := 0.0;
      blinkCount := 0;
    }
  }
}
