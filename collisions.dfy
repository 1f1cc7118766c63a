/** Game::checkCollisions (core/game.cpp:462-543): player shots against opponents, then the
    player against opponents' bodies and projectiles. Opponents' hitboxes do not move while
    collisions are resolved, so each phase is specified by a function of the hitboxes and
    healths it starts from. */
module Collisions {
  import opened Basics
  import opened Particles
  import opened Projectiles
  import opened Players
  import opened Opponents
  import opened ShotRules
  import opened ContactRules

  /** The projectiles the opponents of a list hold. */
  ghost function OpponentShots(ops: seq<Opponent>): set<Projectile>
    reads set o | o in ops
  {
    if ops == [] then {}
    else
      var last := ops[|ops| - 1].projectiles;
      OpponentShots(ops[..|ops| - 1]) + set p | p in last
  }

  lemma {:induction false} OpponentShotsHas(ops: seq<Opponent>)
    ensures forall i, p :: 0 <= i < |ops| && p in ops[i].projectiles ==> p in OpponentShots(ops)
  {
    if ops != [] {
      OpponentShotsHas(ops[..|ops| - 1]);
    }
  }

  /** The hitboxes of a list of opponents. */
  function Rects(ops: seq<Opponent>): (r: seq<Rect>)
    reads set o | o in ops
    ensures |r| == |ops| && forall k :: 0 <= k < |ops| ==> r[k] == ops[k].rect
  {
    if ops == [] then [] else Rects(ops[..|ops| - 1]) + [ops[|ops| - 1].rect]
  }

  /** The healths of a list of opponents. */
  function Healths(ops: seq<Opponent>): (r: seq<int>)
    reads set o | o in ops
    ensures |r| == |ops| && forall k :: 0 <= k < |ops| ==> r[k] == ops[k].health
  {
    if ops == [] then [] else Healths(ops[..|ops| - 1]) + [ops[|ops| - 1].health]
  }

  /** The score values of a list of opponents. */
  function Scores(ops: seq<Opponent>): (r: seq<int>)
    ensures |r| == |ops| && forall k :: 0 <= k < |ops| ==> r[k] == ops[k].scoreVal
  {
    if ops == [] then [] else Scores(ops[..|ops| - 1]) + [ops[|ops| - 1].scoreVal]
  }

  /** The explosion sizes of a list of opponents. */
  function Sparks(ops: seq<Opponent>): (r: seq<int>)
    ensures |r| == |ops| && forall k :: 0 <= k < |ops| ==> r[k] == ops[k].explosion.numParticles
  {
    if ops == [] then [] else Sparks(ops[..|ops| - 1]) + [ops[|ops| - 1].explosion.numParticles]
  }

  /** The hitboxes of a list of projectiles: the projectile counterpart of `Rects`. */
  function Bounds(ps: seq<Projectile>): (r: seq<Rect>)
    reads set p | p in ps
    ensures |r| == |ps| && forall k :: 0 <= k < |ps| ==> r[k] == ps[k].rect
  {
    if ps == [] then [] else Bounds(ps[..|ps| - 1]) + [ps[|ps| - 1].rect]
  }

  /** The inner loop of phase 1: the first opponent that is alive and hit by a shot's
      hitbox. `rects` and `healths` are the opponents' hitboxes and healths. */
  method FindTarget(ops: seq<Opponent>, pb: Rect, ghost rects: seq<Rect>, ghost healths: seq<int>) returns (t: Option<nat>)
    requires |rects| == |healths| == |ops|
    requires forall k :: 0 <= k < |ops| ==> ops[k].rect == rects[k] && ops[k].health == healths[k]
    ensures t == FirstHit(rects, healths, pb)
  {
    var k := 0;
    while k < |ops|
      invariant 0 <= k <= |ops|
      invariant forall j :: 0 <= j < k ==> !(ops[j].IsAlive() && ops[j].IsHit(pb))
    {
      if ops[k].IsAlive() && ops[k].IsHit(pb) {
        return Some(k);
      }
      k := k + 1;
    }
    return None;
  }

  /** A player projectile landing on an alive opponent: one damage, and if that kills it,
      its score value and its explosion. */
  method Strike(o: Opponent, particles: seq<Particle>, rng: nat -> nat, cursor: nat, sin: real -> real, cos: real -> real)
    returns (score: int, result: seq<Particle>, next: nat)
    requires o.Valid() && o.IsAlive() && IsRandStream(rng)
    modifies o
    ensures o.Valid() && o.health == DamagedHealth(old(o.health), 1) && o.health == old(o.health) - 1
    ensures o.rect == old(o.rect) && o.projectiles == old(o.projectiles)
    ensures o.fireTimer == old(o.fireTimer) && o.angle == old(o.angle)
    ensures score == if o.IsAlive() then 0 else o.scoreVal
    ensures |result| == |particles| + (if o.IsAlive() then 0 else o.explosion.numParticles)
    ensures result[..|particles|] == particles
  {
    o.TakeDamage(1);
    score, result, next := 0, particles, cursor;
    if !o.IsAlive() {
      score := o.scoreVal;
      result, next := o.Explode(particles, rng, cursor, sin, cos);
    }
  }

  /** The opponents of a list are valid and have the given hitboxes and healths. */
  predicate Tracks(ops: seq<Opponent>, rects: seq<Rect>, hs: seq<int>)
    reads set o | o in ops
  {
    |ops| == |rects| == |hs| &&
    forall k :: 0 <= k < |ops| ==> ops[k].Valid() && ops[k].rect == rects[k] && ops[k].health == hs[k]
  }

  /** One player projectile against the opponents: `hit` tells whether it lands, in which
      case the first alive opponent it overlaps loses one health; `score` and the new
      particles are what that opponent's death adds. */
  method ShootOne(shot: Rect, ops: seq<Opponent>, particles: seq<Particle>,
                  rng: nat -> nat, cursor: nat, sin: real -> real, cos: real -> real,
                  ghost rects: seq<Rect>, ghost hs: seq<int>)
    returns (hit: bool, score: int, result: seq<Particle>, next: nat)
    requires NoDup(ops) && Tracks(ops, rects, hs) && IsRandStream(rng)
    modifies set o | o in ops
    ensures Tracks(ops, rects, Shoot(hs, rects, shot))
    ensures hit == FirstHit(rects, hs, shot).Some?
    ensures forall k :: 0 <= k < |ops| ==>
              ops[k].projectiles == old(ops[k].projectiles) &&
              ops[k].fireTimer == old(ops[k].fireTimer) && ops[k].angle == old(ops[k].angle)
    ensures score == Gain(hs, rects, shot, Scores(ops))
    ensures |particles| <= |result| == |particles| + Gain(hs, rects, shot, Sparks(ops))
    ensures result[..|particles|] == particles
  {
    var t := FindTarget(ops, shot, rects, hs);
    hit, score, result, next := t.Some?, 0, particles, cursor;
    if t.Some? {
      score, result, next := Strike(ops[t.value], particles, rng, cursor, sin, cos);
    }
  }

  /** A prefix of a prefix. */
  lemma PrefixOfPrefix<P>(a: seq<P>, b: seq<P>, c: seq<P>)
    requires |a| <= |b| <= |c| && c[..|b|] == b && b[..|a|] == a
    ensures c[..|a|] == a
  {
    assert c[..|a|] == c[..|b|][..|a|];
  }

  /** The loop of phase 1 over hitboxes and healths given as values: `shots` are the
      projectiles' hitboxes, `rects` and `h0` the opponents' hitboxes and healths. */
  method ShootAll(ps: seq<Projectile>, ops: seq<Opponent>, particles: seq<Particle>,
                  rng: nat -> nat, cursor: nat, sin: real -> real, cos: real -> real,
                  ghost shots: seq<Rect>, ghost rects: seq<Rect>, ghost h0: seq<int>)
    returns (kept: seq<Projectile>, gained: int, result: seq<Particle>, next: nat)
    requires NoDup(ops) && Tracks(ops, rects, h0) && IsRandStream(rng)
    requires |shots| == |ps| && forall k :: 0 <= k < |ps| ==> ps[k].rect == shots[k]
    modifies set o | o in ops
    ensures Tracks(ops, rects, Run(ps, shots, rects, h0, Scores(ops), Sparks(ops)).hs)
    ensures forall k :: 0 <= k < |ops| ==>
              ops[k].projectiles == old(ops[k].projectiles) &&
              ops[k].fireTimer == old(ops[k].fireTimer) && ops[k].angle == old(ops[k].angle)
    ensures kept == Run(ps, shots, rects, h0, Scores(ops), Sparks(ops)).kept
    ensures gained == Run(ps, shots, rects, h0, Scores(ops), Sparks(ops)).gained
    ensures |result| == |particles| + Run(ps, shots, rects, h0, Scores(ops), Sparks(ops)).spawned
    ensures |particles| <= |result| && result[..|particles|] == particles
  {
    ghost var scores, sparks := Scores(ops), Sparks(ops);
    ghost var t: Tally<Projectile> := Tally(h0, [], 0, 0);
    kept, gained, result, next := [], 0, particles, cursor;
    assert ps[..0] == [];
    var i := 0;
    while i < |ps|
      invariant i <= |ps| && t == Run(ps[..i], shots, rects, h0, scores, sparks)
      invariant Tracks(ops, rects, t.hs)
      invariant forall k :: 0 <= k < |ops| ==>
                  ops[k].projectiles == old(ops[k].projectiles) &&
                  ops[k].fireTimer == old(ops[k].fireTimer) && ops[k].angle == old(ops[k].angle)
      invariant kept == t.kept && gained == t.gained
      invariant |particles| <= |result| == |particles| + t.spawned && result[..|particles|] == particles
    {
      var hit, score, more;
      hit, score, more, next := ShootOne(ps[i].rect, ops, result, rng, next, sin, cos, rects, t.hs);
      PrefixOfPrefix(particles, result, more);
      RunStep(ps, shots, rects, h0, scores, sparks, i);
      if !hit {
        kept := kept + [ps[i]];
      }
      gained, result := gained + score, more;
      t := Step(t, ps[i], shots[i], rects, scores, sparks);
      i := i + 1;
    }
    assert ps[..|ps|] == ps;
  }

  /** Phase 1: each player projectile, in order, damages the first alive opponent it
      overlaps by one and is erased; an opponent that dies from it adds its score value
      and explodes. */
  method ResolveShots(ps: seq<Projectile>, ops: seq<Opponent>, particles: seq<Particle>,
                      rng: nat -> nat, cursor: nat, sin: real -> real, cos: real -> real)
    returns (kept: seq<Projectile>, gained: int, result: seq<Particle>, next: nat)
    requires NoDup(ops) && forall k :: 0 <= k < |ops| ==> ops[k].Valid()
    requires IsRandStream(rng)
    modifies set o | o in ops
    ensures forall k :: 0 <= k < |ops| ==>
              ops[k].Valid() && ops[k].rect == old(ops[k].rect) && ops[k].projectiles == old(ops[k].projectiles) &&
              ops[k].fireTimer == old(ops[k].fireTimer) && ops[k].angle == old(ops[k].angle)
    ensures Healths(ops) == AfterShots(old(Bounds(ps)), old(Rects(ops)), old(Healths(ops)))
    ensures kept == Unspent(ps, old(Bounds(ps)), old(Rects(ops)), old(Healths(ops)))
    ensures gained == KillSum(old(Healths(ops)), Healths(ops), Scores(ops))
    ensures |result| == |particles| + KillSum(old(Healths(ops)), Healths(ops), Sparks(ops))
    ensures result[..|particles|] == particles
  {
    ghost var shots := Bounds(ps);
    ghost var rects := Rects(ops);
    ghost var h0 := Healths(ops);
    kept, gained, result, next := ShootAll(ps, ops, particles, rng, cursor, sin, cos, shots, rects, h0);
    RunHealths(ps, shots, rects, h0, Scores(ops), Sparks(ops));
    RunKept(ps, shots, rects, h0, Scores(ops), Sparks(ops));
    RunGains(ps, shots, rects, h0, Scores(ops), Sparks(ops));
    assert shots[..|ps|] == shots;
    assert Healths(ops) == AfterShots(shots, rects, h0);
  }

  // Phase 2: the player against opponents and their projectiles (core/game.cpp:490-541).

  /** `f` is how opponent `o` looks to phase 2. */
  ghost predicate Depicts(o: Opponent, f: Foe<Projectile>)
    reads o, set p | p in o.projectiles
  {
    o.health == f.health && o.rect == f.body && o.projectiles == f.shots &&
    |f.bounds| == |f.shots| && (forall j :: 0 <= j < |f.bounds| ==> o.projectiles[j].rect == f.bounds[j]) &&
    f.score == o.scoreVal && f.sparks == o.explosion.numParticles
  }

  /** How an opponent looks to phase 2. */
  ghost function FoeOf(o: Opponent): (f: Foe<Projectile>)
    reads o, set p | p in o.projectiles
    ensures Depicts(o, f)
  {
    Foe(o.health, o.rect, o.projectiles, Bounds(o.projectiles), o.scoreVal, o.explosion.numParticles)
  }

  /** How a list of opponents looks to phase 2. */
  ghost function Foes(ops: seq<Opponent>): (r: seq<Foe<Projectile>>)
    reads set o | o in ops, set o, p | o in ops && p in o.projectiles :: p
    ensures |r| == |ops| && forall k :: 0 <= k < |ops| ==> Depicts(ops[k], r[k])
  {
    if ops == [] then [] else Foes(ops[..|ops| - 1]) + [FoeOf(ops[|ops| - 1])]
  }

  /** The inner loop of phase 2 (core/game.cpp:511-532): each of the opponent's projectiles,
      in order, that overlaps the player costs the player one health and is erased; the
      loop returns as soon as the player dies. */
  method DodgeVolley(o: Opponent, player: Player, ghost bounds: seq<Rect>)
    requires o.Valid() && player.Valid() && player.IsAlive()
    requires |bounds| == |o.projectiles| && forall j :: 0 <= j < |bounds| ==> o.projectiles[j].rect == bounds[j]
    modifies o, player
    ensures Volley(player.health, o.projectiles) == Barrage(old(o.projectiles), bounds, old(player.rect), old(player.health))
    ensures o.Valid() && player.Valid()
    ensures o.health == old(o.health) && o.rect == old(o.rect) && o.fireTimer == old(o.fireTimer) && o.angle == old(o.angle)
    ensures player.rect == old(player.rect) && player.projectiles == old(player.projectiles)
  {
    var shots := o.projectiles;
    ghost var pr, h0 := player.rect, player.health;
    var kept := [];
    var i := 0;
    while i < |shots|
      invariant 0 <= i <= |shots| && unchanged(o)
      invariant player.Valid() && player.IsAlive() && player.rect == pr && player.projectiles == old(player.projectiles)
      invariant Barrage(shots, bounds, pr, h0) ==
                Volley(Barrage(shots[i..], bounds[i..], pr, player.health).health,
                       kept + Barrage(shots[i..], bounds[i..], pr, player.health).kept)
    {
      BarrageAt(shots, bounds, pr, player.health, i);
      if Overlaps(shots[i].rect, player.rect) {
        player.TakeDamage(1);
        if !player.IsAlive() {
          o.projectiles := kept + shots[i + 1..];
          BarrageKeeps(shots, bounds, pr, h0);
          return;
        }
      } else {
        assert kept + ([shots[i]] + Barrage(shots[i + 1..], bounds[i + 1..], pr, player.health).kept) ==
               (kept + [shots[i]]) + Barrage(shots[i + 1..], bounds[i + 1..], pr, player.health).kept;
        kept := kept + [shots[i]];
      }
      i := i + 1;
    }
    assert shots[i..] == [];
    o.projectiles := kept;
    BarrageKeeps(shots, bounds, pr, h0);
  }

  /** One turn of phase 2's outer loop: a dead opponent is skipped; an alive one the player
      touches costs the player one health, explodes, scores and is erased; otherwise its
      projectiles are resolved. */
  method Engage(o: Opponent, player: Player, particles: seq<Particle>,
                rng: nat -> nat, cursor: nat, sin: real -> real, cos: real -> real, ghost f: Foe<Projectile>)
    returns (erased: bool, score: int, result: seq<Particle>, next: nat)
    requires o.Valid() && player.Valid() && player.IsAlive() && IsRandStream(rng) && Depicts(o, f)
    modifies o, player
    ensures player.health == Meet(f, old(player.rect), old(player.health)).health
    ensures erased == Meet(f, old(player.rect), old(player.health)).erased
    ensures o.projectiles == Meet(f, old(player.rect), old(player.health)).kept
    ensures score == Meet(f, old(player.rect), old(player.health)).gained
    ensures |result| == |particles| + Meet(f, old(player.rect), old(player.health)).spawned
    ensures |particles| <= |result| && result[..|particles|] == particles
    ensures o.Valid() && player.Valid()
    ensures o.health == old(o.health) && o.rect == old(o.rect) && o.fireTimer == old(o.fireTimer) && o.angle == old(o.angle)
    ensures player.rect == old(player.rect) && player.projectiles == old(player.projectiles)
  {
    erased, score, result, next := false, 0, particles, cursor;
    if !o.IsAlive() {
      return;
    }
    if player.IsHit(o.rect) {
      player.TakeDamage(1);
      result, next := o.Explode(particles, rng, cursor, sin, cos);
      score := o.scoreVal;
      erased := true;
    } else {
      DodgeVolley(o, player, f.bounds);
    }
  }

  /** Phase 2's view of the opponents once the first `|lists|` of them have been met: each
      keeps its health, hitbox, fire timer and angle, a met one holds what its meeting left
      it, and one not yet met is still as `foes` depicts it. */
  ghost predicate Poised(ops: seq<Opponent>, foes: seq<Foe<Projectile>>, lists: seq<seq<Projectile>>,
                         timers: seq<real>, angles: seq<real>)
    reads set o | o in ops, set o, p | o in ops && p in o.projectiles :: p
  {
    |foes| == |ops| && |timers| == |ops| && |angles| == |ops| && |lists| <= |ops| &&
    (forall k :: 0 <= k < |ops| ==>
       ops[k].Valid() && ops[k].health == foes[k].health && ops[k].rect == foes[k].body &&
       ops[k].fireTimer == timers[k] && ops[k].angle == angles[k]) &&
    (forall k :: 0 <= k < |lists| ==> ops[k].projectiles == lists[k]) &&
    (forall k :: |lists| <= k < |ops| ==> Depicts(ops[k], foes[k]))
  }

  /** One turn of phase 2's outer loop over the list: the player meets opponent `i`, and
      the list being rebuilt, the score and the particles follow the scan `acc` by one step. */
  method ContactOne(ops: seq<Opponent>, i: nat, player: Player, remaining: seq<Opponent>, gained: int,
                    result: seq<Particle>, rng: nat -> nat, cursor: nat, sin: real -> real, cos: real -> real,
                    ghost particles: seq<Particle>, ghost foes: seq<Foe<Projectile>>, ghost acc: Sweep<Projectile>,
                    ghost timers: seq<real>, ghost angles: seq<real>)
    returns (remaining': seq<Opponent>, gained': int, result': seq<Particle>, next: nat, ghost acc': Sweep<Projectile>)
    requires NoDup(ops) && Poised(ops, foes, acc.lists, timers, angles)
    requires i == |acc.lists| == |acc.erased| < |ops|
    requires remaining == Keep(ops[..i], acc.erased) && gained == acc.gained
    requires |particles| <= |result| == |particles| + acc.spawned && result[..|particles|] == particles
    requires player.Valid() && player.IsAlive() && IsRandStream(rng)
    modifies player, ops[i]
    ensures Aligned(foes[i]) && acc' == Extend(acc, Meet(foes[i], old(player.rect), old(player.health)))
    ensures player.health == Meet(foes[i], old(player.rect), old(player.health)).health
    ensures Poised(ops, foes, acc'.lists, timers, angles)
    ensures remaining' == Keep(ops[..i + 1], acc'.erased) && gained' == acc'.gained
    ensures |particles| <= |result'| == |particles| + acc'.spawned && result'[..|particles|] == particles
    ensures player.Valid() && player.rect == old(player.rect) && player.projectiles == old(player.projectiles)
  {
    acc' := Extend(acc, Meet(foes[i], player.rect, player.health));
    var erased, score;
    erased, score, result', next := Engage(ops[i], player, result, rng, cursor, sin, cos, foes[i]);
    PrefixOfPrefix(particles, result, result');
    KeepPrefix(ops, acc.erased, i, erased);
    remaining' := if erased then remaining else remaining + [ops[i]];
    gained' := gained + score;
  }

  /** The loop of phase 2 (core/game.cpp:493-540) with the opponents' fixed fields given as
      values: `acc` is the scan it performs. */
  method ContactAll(ops: seq<Opponent>, player: Player, particles: seq<Particle>,
                    rng: nat -> nat, cursor: nat, sin: real -> real, cos: real -> real,
                    ghost foes: seq<Foe<Projectile>>, ghost timers: seq<real>, ghost angles: seq<real>)
    returns (remaining: seq<Opponent>, gained: int, result: seq<Particle>, next: nat, ghost acc: Sweep<Projectile>)
    requires NoDup(ops) && Poised(ops, foes, [], timers, angles) && AllAligned(foes)
    requires player.Valid() && player.IsAlive() && IsRandStream(rng)
    modifies player, set o | o in ops
    ensures acc == Scan(foes, old(player.rect), old(player.health))
    ensures Poised(ops, foes, acc.lists, timers, angles)
    ensures player.health == acc.health && gained == acc.gained
    ensures remaining == Keep(ops[..|acc.erased|], acc.erased) + ops[|acc.erased|..]
    ensures |particles| <= |result| == |particles| + acc.spawned && result[..|particles|] == particles
    ensures player.Valid() && player.rect == old(player.rect) && player.projectiles == old(player.projectiles)
  {
    ghost var pr, h0 := player.rect, player.health;
    acc := Sweep(0, [], [], 0, 0);
    ghost var s := Scan(foes, pr, h0);
    assert foes[0..] == foes;
    remaining, gained, result, next := [], 0, particles, cursor;
    var i := 0;
    while i < |ops| && player.IsAlive()
      invariant 0 <= i <= |ops| && |acc.erased| == |acc.lists| == i
      invariant player.Valid() && player.rect == pr && player.projectiles == old(player.projectiles)
      invariant Poised(ops, foes, acc.lists, timers, angles)
      invariant if player.IsAlive() then s == Glue(acc, Scan(foes[i..], pr, player.health))
                else s == acc && player.health == acc.health
      invariant remaining == Keep(ops[..i], acc.erased) && gained == acc.gained
      invariant |particles| <= |result| == |particles| + acc.spawned && result[..|particles|] == particles
    {
      ScanStep(foes, pr, h0, acc, i, player.health);
      remaining, gained, result, next, acc :=
        ContactOne(ops, i, player, remaining, gained, result, rng, next, sin, cos, particles, foes, acc, timers, angles);
      i := i + 1;
    }
    if player.IsAlive() {
      ScanEnd(foes, pr, h0, acc, player.health);
      acc := Sweep(player.health, acc.erased, acc.lists, acc.gained, acc.spawned);
    }
    remaining := remaining + ops[i..];
  }

  /** Phase 2 over opponents that `foes` depict: the player, alive, meets each opponent in
      order until it dies; the opponents it touched are erased from the list. */
  method ResolveContacts(ops: seq<Opponent>, player: Player, particles: seq<Particle>,
                         rng: nat -> nat, cursor: nat, sin: real -> real, cos: real -> real,
                         ghost foes: seq<Foe<Projectile>>)
    returns (remaining: seq<Opponent>, gained: int, result: seq<Particle>, next: nat)
    requires NoDup(ops) && (forall k :: 0 <= k < |ops| ==> ops[k].Valid())
    requires player.Valid() && player.IsAlive() && IsRandStream(rng)
    requires |foes| == |ops| && forall k :: 0 <= k < |ops| ==> Depicts(ops[k], foes[k])
    modifies player, set o | o in ops
    ensures AllAligned(foes)
    ensures var s := Scan(foes, old(player.rect), old(player.health));
            player.health == s.health &&
            remaining == Keep(ops[..|s.erased|], s.erased) + ops[|s.erased|..] &&
            (forall k :: 0 <= k < |s.lists| ==> ops[k].projectiles == s.lists[k]) &&
            (forall k :: |s.lists| <= k < |ops| ==> ops[k].projectiles == old(ops[k].projectiles)) &&
            gained == s.gained && |particles| <= |result| == |particles| + s.spawned &&
            result[..|particles|] == particles
    ensures forall k :: 0 <= k < |ops| ==>
              ops[k].Valid() && ops[k].health == old(ops[k].health) && ops[k].rect == old(ops[k].rect) &&
              ops[k].fireTimer == old(ops[k].fireTimer) && ops[k].angle == old(ops[k].angle)
    ensures player.Valid() && player.rect == old(player.rect) && player.projectiles == old(player.projectiles)
    ensures NoDup(remaining) && forall o :: o in remaining ==> o in ops
  {
    ghost var timers := seq(|ops|, k requires 0 <= k < |ops| reads ops => ops[k].fireTimer);
    ghost var angles := seq(|ops|, k requires 0 <= k < |ops| reads ops => ops[k].angle);
    assert AllAligned(foes);
    assert Poised(ops, foes, [], timers, angles);
    ghost var acc;
    remaining, gained, result, next, acc := ContactAll(ops, player, particles, rng, cursor, sin, cos, foes, timers, angles);
    KeepThenRest(ops, acc.erased, |acc.erased|);
  }

  /** Phase 1 with the player's projectiles: the shots that hit (as ResolveShots states
      them) are erased from the player's list, so the player keeps its box and health and
      only loses projectiles; every opponent stays well formed; particles are only appended. */
  method PlayerShots(player: Player, ops: seq<Opponent>, particles: seq<Particle>,
                     rng: nat -> nat, cursor: nat, sin: real -> real, cos: real -> real)
    returns (gained: int, result: seq<Particle>, next: nat)
    requires NoDup(ops) && (forall o :: o in ops ==> o.Valid())
    requires player.Valid() && IsRandStream(rng)
    modifies player, set o | o in ops
    ensures player.Valid() && player.rect == old(player.rect) && player.health == old(player.health)
    ensures forall p :: p in player.projectiles ==> p in old(player.projectiles)
    ensures forall o :: o in ops ==> o.Valid()
    ensures |particles| <= |result| && result[..|particles|] == particles
  {
    var kept;
    kept, gained, result, next := KeptShots(player.projectiles, ops, particles, rng, cursor, sin, cos);
    player.projectiles := kept;
  }

  /** Phase 1 as PlayerShots relies on it: the kept projectiles are some of the fired ones,
      each held once; every opponent stays well formed; particles are only appended. */
  method KeptShots(ps: seq<Projectile>, ops: seq<Opponent>, particles: seq<Particle>,
                   rng: nat -> nat, cursor: nat, sin: real -> real, cos: real -> real)
    returns (kept: seq<Projectile>, gained: int, result: seq<Particle>, next: nat)
    requires NoDup(ps) && NoDup(ops) && (forall o :: o in ops ==> o.Valid())
    requires IsRandStream(rng)
    modifies set o | o in ops
    ensures NoDup(kept) && forall p :: p in kept ==> p in ps
    ensures forall o :: o in ops ==> o.Valid()
    ensures |particles| <= |result| && result[..|particles|] == particles
  {
    kept, gained, result, next := ResolveShots(ps, ops, particles, rng, cursor, sin, cos);
    UnspentFrom(ps, old(Bounds(ps)), old(Rects(ops)), old(Healths(ops)));
  }

  /** Phase 2 as the game loop relies on it: the player keeps its box and projectiles and
      its health only falls; the survivors are some of the opponents, each well formed and
      held once; particles are only appended. */
  method PlayerContacts(player: Player, ops: seq<Opponent>, particles: seq<Particle>,
                        rng: nat -> nat, cursor: nat, sin: real -> real, cos: real -> real)
    returns (remaining: seq<Opponent>, gained: int, result: seq<Particle>, next: nat)
    requires NoDup(ops) && (forall o :: o in ops ==> o.Valid())
    requires player.Valid() && player.IsAlive() && IsRandStream(rng)
    modifies player, set o | o in ops
    ensures player.Valid() && player.rect == old(player.rect) && player.health <= old(player.health)
    ensures player.projectiles == old(player.projectiles)
    ensures NoDup(remaining) && forall o :: o in remaining ==> o in ops && o.Valid()
    ensures |particles| <= |result| && result[..|particles|] == particles
  {
    ghost var foes := Foes(ops);
    remaining, gained, result, next := ResolveContacts(ops, player, particles, rng, cursor, sin, cos, foes);
  }
}
