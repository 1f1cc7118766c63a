/** Geometry, damage and the environment's numeric primitives shared by every entity.
    SDL rectangles become `Rect` records over `real`; `sin`, `sqrt` and `rand()` are
    supplied by the caller (a function argument or a stream of raw draws) and only their
    bounds are assumed. */
module Basics {

  datatype Option<T> = None | Some(value: T)

  /** An SDL_FRect: top-left corner and size. */
  datatype Rect = Rect(x: real, y: real, w: real, h: real)

  /** An SDL_FPoint. */
  datatype Point = Point(x: real, y: real)

  /** The largest value rand() returns (glibc). */
  const RAND_MAX: nat := 2147483647

  /** Strict axis-aligned overlap, as Player::isHit and the inline projectile test of
      Game::checkCollisions write it: rectangles that only touch do not overlap. */
  predicate Overlaps(a: Rect, b: Rect)
  {
    a.x < b.x + b.w && a.x + a.w > b.x && a.y < b.y + b.h && a.y + a.h > b.y
  }

  /** Overlap does not depend on which rectangle is the player's. */
  lemma OverlapsSymmetric(a: Rect, b: Rect)
    ensures Overlaps(a, b) <==> Overlaps(b, a)
  {
  }

  /** Rectangles that share only an edge do not overlap. */
  lemma TouchingDoesNotOverlap(a: Rect, b: Rect)
    requires a.x + a.w == b.x || b.x + b.w == a.x || a.y + a.h == b.y || b.y + b.h == a.y
    ensures !Overlaps(a, b)
  {
  }

  /** Conversion of a float to `int` (a `static_cast` or an implicit conversion) truncates toward zero. */
  function TruncToInt(v: real): (n: int)
    ensures v >= 0.0 ==> n as real <= v < n as real + 1.0
    ensures v < 0.0 ==> n as real - 1.0 < v <= n as real
  {
    if v >= 0.0 then v.Floor else -((-v).Floor)
  }

  /** Game::pointInRect: half-open containment of an integer point. */
  predicate PointInRect(x: int, y: int, r: Rect)
  {
    x as real >= r.x && (x as real) < r.x + r.w && y as real >= r.y && (y as real) < r.y + r.h
  }

  /** The health left after `takeDamage(damage)`: subtract, then floor at zero
      (Player::takeDamage and BaseOpponent::takeDamage are the same rule). */
  function DamagedHealth(health: int, damage: int): (r: int)
    ensures r >= 0 && r >= health - damage
    ensures r == 0 || r == health - damage
    ensures r == 0 <==> damage >= health
    ensures damage >= 0 ==> r <= health || health < 0
  {
    if health - damage < 0 then 0 else health - damage
  }

  /** `rand() % n`: rand() never returns a negative number, so the remainder lies in [0, n). */
  function RandMod(draw: nat, n: nat): (r: nat)
    requires n > 0
    ensures r < n
    ensures draw < n ==> r == draw
  {
    draw % n
  }

  /** A stream of rand() results: the k-th call returns rng(k), in [0, RAND_MAX]. */
  ghost predicate IsRandStream(rng: nat -> nat)
  {
    forall k :: rng(k) <= RAND_MAX
  }

  /** What the model assumes of `sin`: its values lie in [-1, 1]. */
  ghost predicate IsSine(sin: real -> real)
  {
    forall a :: -1.0 <= sin(a) <= 1.0
  }

  /** What std::sqrt is taken to be: the non-negative square root of a non-negative number. */
  ghost predicate IsSqrt(sqrt: real -> real)
  {
    forall x :: x >= 0.0 ==> sqrt(x) >= 0.0 && sqrt(x) * sqrt(x) == x
  }

  /** Cancelling a positive factor from both sides of an equation. */
  lemma MulCancel(a: real, b: real, c: real)
    requires c > 0.0 && a * c == b * c
    ensures a == b
  {
    assert (a - b) * c == 0.0;
  }

  /** Multiplying by a positive number keeps the sign. */
  lemma SignOfProduct(a: real, b: real)
    requires b > 0.0
    ensures a * b > 0.0 <==> a > 0.0
    ensures a * b < 0.0 <==> a < 0.0
  {
    if a > 0.0 {
      assert a * b > 0.0;
    } else if a < 0.0 {
      assert a * b < 0.0;
    } else {
      assert a * b == 0.0;
    }
  }

  /** No element occurs twice: a container owns each of the objects it holds. */
  predicate NoDup<T(==)>(s: seq<T>)
  {
    forall i, j :: 0 <= i < j < |s| ==> s[i] != s[j]
  }
}
