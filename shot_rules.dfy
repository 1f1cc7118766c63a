/** The rules of phase 1 of Game::checkCollisions (core/game.cpp:465-487) over values:
    each player projectile, in order, takes one health from the first alive opponent whose
    hitbox it overlaps and is then spent. Hitboxes do not move during the phase, so the
    whole phase is a function of the shots' hitboxes, the opponents' hitboxes and the
    opponents' healths. */
module ShotRules {
  import opened Basics

  
  /** The first opponent that is alive and whose hitbox a shot overlaps: the one the inner
      loop of phase 1 stops at. */
  function FirstHit(rects: seq<Rect>, healths: seq<int>, shot: Rect): (r: Option<nat>)
    requires |rects| == |healths|
    ensures r.Some? ==> r.value < |rects| && healths[r.value] > 0 && Overlaps(rects[r.value], shot)
    ensures r.Some? ==> forall k :: 0 <= k < r.value ==> !(healths[k] > 0 && Overlaps(rects[k], shot))
    ensures r.None? <==> forall k :: 0 <= k < |rects| ==> !(healths[k] > 0 && Overlaps(rects[k], shot))
  {
    if |rects| == 0 then None
    else if healths[0] > 0 && Overlaps(rects[0], shot) then Some(0)
    else
      match FirstHit(rects[1..], healths[1..], shot)
      case None => None
      case Some(k) => Some(k + 1)
  }

  /** The opponents' healths after one shot: it takes one health from the first alive
      opponent it overlaps, if any. */
  function Shoot(healths: seq<int>, rects: seq<Rect>, shot: Rect): (r: seq<int>)
    requires |rects| == |healths|
    ensures |r| == |healths|
  {
    match FirstHit(rects, healths, shot)
    case None => healths
    case Some(k) => healths[k := DamagedHealth(healths[k], 1)]
  }

  /** The opponents' healths after a run of shots, taken in order. */
  function AfterShots(shots: seq<Rect>, rects: seq<Rect>, healths: seq<int>): (r: seq<int>)
    requires |rects| == |healths|
    ensures |r| == |healths|
  {
    if shots == [] then healths
    else Shoot(AfterShots(shots[..|shots| - 1], rects, healths), rects, shots[|shots| - 1])
  }

  /** Whether the shot at index `i` of a run hits an opponent and is spent. */
  predicate Spent(shots: seq<Rect>, rects: seq<Rect>, healths: seq<int>, i: nat)
    requires |rects| == |healths| && i < |shots|
  {
    FirstHit(rects, AfterShots(shots[..i], rects, healths), shots[i]).Some?
  }

  /** The projectiles of a run that hit nothing, in order. */
  function Unspent<T>(ps: seq<T>, shots: seq<Rect>, rects: seq<Rect>, healths: seq<int>): (r: seq<T>)
    requires |ps| <= |shots| && |rects| == |healths|
    ensures |r| <= |ps|
  {
    if ps == [] then []
    else
      var n := |ps| - 1;
      Unspent(ps[..n], shots, rects, healths) + (if Spent(shots, rects, healths, n) then [] else [ps[n]])
  }

  /** The unspent shots are a subsequence of the run: each comes from it, none twice. */
  lemma {:induction false} UnspentFrom<T>(ps: seq<T>, shots: seq<Rect>, rects: seq<Rect>, healths: seq<int>)
    requires |ps| <= |shots| && |rects| == |healths|
    ensures forall x :: x in Unspent(ps, shots, rects, healths) ==> x in ps
    ensures NoDup(ps) ==> NoDup(Unspent(ps, shots, rects, healths))
  {
    if ps != [] {
      var n := |ps| - 1;
      UnspentFrom(ps[..n], shots, rects, healths);
      if NoDup(ps) {
        assert NoDup(ps[..n]);
        assert ps[n] !in ps[..n];
      }
    }
  }

  /** How many shots of a run are spent. */
  function SpentCount(shots: seq<Rect>, rects: seq<Rect>, healths: seq<int>, n: nat): (c: nat)
    requires |rects| == |healths| && n <= |shots|
    ensures c <= n
  {
    if n == 0 then 0 else SpentCount(shots, rects, healths, n - 1) + (if Spent(shots, rects, healths, n - 1) then 1 else 0)
  }

  /** The sum of `values` over the opponents alive before (health > 0) and dead after. */
  function KillSum(before: seq<int>, after: seq<int>, values: seq<int>): (r: int)
    requires |before| == |after| == |values|
    ensures (forall k :: 0 <= k < |values| ==> values[k] >= 0) ==> r >= 0
  {
    if before == [] then 0
    else
      var n := |before| - 1;
      KillSum(before[..n], after[..n], values[..n]) + (if before[n] > 0 && after[n] <= 0 then values[n] else 0)
  }

  /** The sum of a list of healths. */
  function Total(hs: seq<int>): int
  {
    if hs == [] then 0 else Total(hs[..|hs| - 1]) + hs[|hs| - 1]
  }

  /** AfterShots over one more shot. */
  lemma ShotStep(shots: seq<Rect>, rects: seq<Rect>, healths: seq<int>, i: nat)
    requires |rects| == |healths| && i < |shots|
    ensures AfterShots(shots[..i + 1], rects, healths) == Shoot(AfterShots(shots[..i], rects, healths), rects, shots[i])
  {
    assert shots[..i + 1][..i] == shots[..i];
  }

  /** One shot lowers the total health by one exactly when it hits; it never raises a
      health and never takes one below zero. */
  lemma ShootEffect(healths: seq<int>, rects: seq<Rect>, shot: Rect)
    requires |rects| == |healths|
    ensures Total(Shoot(healths, rects, shot)) == Total(healths) - (if FirstHit(rects, healths, shot).Some? then 1 else 0)
    ensures forall k :: 0 <= k < |healths| ==>
              Shoot(healths, rects, shot)[k] <= healths[k] && (healths[k] >= 0 ==> Shoot(healths, rects, shot)[k] >= 0)
  {
    match FirstHit(rects, healths, shot) {
      case None =>
      case Some(k) => TotalUpdate(healths, k, DamagedHealth(healths[k], 1));
    }
  }

  /** Changing one health changes the total by the difference. */
  lemma {:induction false} TotalUpdate(hs: seq<int>, k: nat, v: int)
    requires k < |hs|
    ensures Total(hs[k := v]) == Total(hs) - hs[k] + v
  {
    var n := |hs| - 1;
    if k < n {
      TotalUpdate(hs[..n], k, v);
      assert hs[k := v][..n] == hs[..n][k := v];
    } else {
      assert hs[k := v][..n] == hs[..n];
    }
  }

  /** Each spent shot costs the opponents exactly one health in total: a shot only ever
      lands on an opponent that is alive. */
  lemma {:induction false} ShotsCostOneEach(shots: seq<Rect>, rects: seq<Rect>, healths: seq<int>, n: nat)
    requires |rects| == |healths| && n <= |shots|
    ensures Total(healths) - Total(AfterShots(shots[..n], rects, healths)) == SpentCount(shots, rects, healths, n)
  {
    if n > 0 {
      ShotsCostOneEach(shots, rects, healths, n - 1);
      ShotStep(shots, rects, healths, n - 1);
      ShootEffect(AfterShots(shots[..n - 1], rects, healths), rects, shots[n - 1]);
    } else {
      assert shots[..0] == [];
    }
  }

  /** Shots never raise a health, and never take one below zero. */
  lemma {:induction false} ShotsOnlyLower(shots: seq<Rect>, rects: seq<Rect>, healths: seq<int>, m: nat, n: nat, k: nat)
    requires |rects| == |healths| && m <= n <= |shots| && k < |healths|
    ensures AfterShots(shots[..n], rects, healths)[k] <= AfterShots(shots[..m], rects, healths)[k]
    ensures AfterShots(shots[..m], rects, healths)[k] >= 0 ==> AfterShots(shots[..n], rects, healths)[k] >= 0
    decreases n - m
  {
    if m < n {
      ShotsOnlyLower(shots, rects, healths, m, n - 1, k);
      ShotStep(shots, rects, healths, n - 1);
      var before := AfterShots(shots[..n - 1], rects, healths);
      ShootEffect(before, rects, shots[n - 1]);
      assert Shoot(before, rects, shots[n - 1])[k] <= before[k];
    }
  }

  /** A shot that was kept overlaps no opponent still alive once every shot has been
      resolved. */
  lemma KeptShotMissesSurvivors(shots: seq<Rect>, rects: seq<Rect>, healths: seq<int>, i: nat)
    requires |rects| == |healths| && i < |shots| && !Spent(shots, rects, healths, i)
    ensures forall k :: 0 <= k < |rects| && AfterShots(shots, rects, healths)[k] > 0 ==> !Overlaps(rects[k], shots[i])
  {
    assert shots[..|shots|] == shots;
    forall k | 0 <= k < |rects| && AfterShots(shots, rects, healths)[k] > 0
      ensures !Overlaps(rects[k], shots[i])
    {
      ShotsOnlyLower(shots, rects, healths, i, |shots|, k);
    }
  }

  /** KillSum after one opponent that is alive now takes a new health `v`. */
  lemma {:induction false} KillSumUpdate(before: seq<int>, after: seq<int>, values: seq<int>, k: nat, v: int)
    requires |before| == |after| == |values| && k < |after|
    requires 0 < after[k] <= before[k]
    ensures KillSum(before, after[k := v], values) == KillSum(before, after, values) + (if v <= 0 then values[k] else 0)
  {
    var n := |before| - 1;
    if k < n {
      KillSumUpdate(before[..n], after[..n], values[..n], k, v);
      assert after[k := v][..n] == after[..n][k := v];
    } else {
      assert after[k := v][..n] == after[..n];
    }
  }

  /** Nothing is killed while no health changes. */
  lemma {:induction false} KillSumUnchanged(hs: seq<int>, values: seq<int>)
    requires |hs| == |values|
    ensures KillSum(hs, hs, values) == 0
  {
    if hs != [] {
      KillSumUnchanged(hs[..|hs| - 1], values[..|values| - 1]);
    }
  }

  /** The gain a shot brings when it kills: the value of the opponent it lands on, if the
      hit takes that opponent's health to zero or below. */
  function Gain(hs: seq<int>, rects: seq<Rect>, shot: Rect, values: seq<int>): (g: int)
    requires |rects| == |hs| == |values|
    ensures FirstHit(rects, hs, shot).None? ==> g == 0
    ensures g != 0 ==> exists k :: 0 <= k < |hs| && g == values[k] && hs[k] == 1
  {
    match FirstHit(rects, hs, shot)
    case None => 0
    case Some(k) => if DamagedHealth(hs[k], 1) <= 0 then values[k] else 0
  }

  /** What phase 1 has produced so far: the opponents' healths, the projectiles kept, the
      score gained and the number of particles spawned. */
  datatype Tally<T> = Tally(hs: seq<int>, kept: seq<T>, gained: int, spawned: int)

  /** Phase 1 after one more projectile `p` with hitbox `shot`. */
  function Step<T>(t: Tally<T>, p: T, shot: Rect, rects: seq<Rect>, scores: seq<int>, sparks: seq<int>): (r: Tally<T>)
    requires |t.hs| == |rects| == |scores| == |sparks|
    ensures |r.hs| == |t.hs|
    ensures r.kept == t.kept || r.kept == t.kept + [p]
  {
    Tally(Shoot(t.hs, rects, shot),
          if FirstHit(rects, t.hs, shot).Some? then t.kept else t.kept + [p],
          t.gained + Gain(t.hs, rects, shot, scores),
          t.spawned + Gain(t.hs, rects, shot, sparks))
  }

  /** Phase 1 over a run of projectiles `ps` with hitboxes `shots`, against opponents with
      hitboxes `rects`, healths `h0`, score values `scores` and explosion sizes `sparks`. */
  function Run<T>(ps: seq<T>, shots: seq<Rect>, rects: seq<Rect>, h0: seq<int>, scores: seq<int>, sparks: seq<int>): (r: Tally<T>)
    requires |ps| <= |shots| && |rects| == |h0| == |scores| == |sparks|
    ensures |r.hs| == |h0| && |r.kept| <= |ps|
  {
    if ps == [] then Tally(h0, [], 0, 0)
    else
      var n := |ps| - 1;
      Step(Run(ps[..n], shots, rects, h0, scores, sparks), ps[n], shots[n], rects, scores, sparks)
  }

  /** Run over one more projectile. */
  lemma RunStep<T>(ps: seq<T>, shots: seq<Rect>, rects: seq<Rect>, h0: seq<int>, scores: seq<int>, sparks: seq<int>, i: nat)
    requires i < |ps| <= |shots| && |rects| == |h0| == |scores| == |sparks|
    ensures Run(ps[..i + 1], shots, rects, h0, scores, sparks) ==
            Step(Run(ps[..i], shots, rects, h0, scores, sparks), ps[i], shots[i], rects, scores, sparks)
  {
    assert ps[..i + 1][..i] == ps[..i];
  }

  /** The healths Run ends with are those after the shots in order; no health rises. */
  lemma {:induction false} RunHealths<T>(ps: seq<T>, shots: seq<Rect>, rects: seq<Rect>, h0: seq<int>,
                                         scores: seq<int>, sparks: seq<int>)
    requires |ps| <= |shots| && |rects| == |h0| == |scores| == |sparks|
    ensures Run(ps, shots, rects, h0, scores, sparks).hs == AfterShots(shots[..|ps|], rects, h0)
    ensures forall k :: 0 <= k < |h0| ==> Run(ps, shots, rects, h0, scores, sparks).hs[k] <= h0[k]
  {
    if ps == [] {
      assert shots[..0] == [];
    } else {
      var n := |ps| - 1;
      RunHealths(ps[..n], shots, rects, h0, scores, sparks);
      ShotStep(shots, rects, h0, n);
      ShootEffect(Run(ps[..n], shots, rects, h0, scores, sparks).hs, rects, shots[n]);
    }
  }

  /** The projectiles Run keeps are exactly the shots that hit nothing, in order. */
  lemma {:induction false} RunKept<T>(ps: seq<T>, shots: seq<Rect>, rects: seq<Rect>, h0: seq<int>,
                                      scores: seq<int>, sparks: seq<int>)
    requires |ps| <= |shots| && |rects| == |h0| == |scores| == |sparks|
    ensures Run(ps, shots, rects, h0, scores, sparks).kept == Unspent(ps, shots, rects, h0)
  {
    if ps != [] {
      var n := |ps| - 1;
      RunKept(ps[..n], shots, rects, h0, scores, sparks);
      RunHealths(ps[..n], shots, rects, h0, scores, sparks);
    }
  }

  /** The score Run gains and the particles it spawns are the sums of the score values and
      explosion sizes of the opponents the run kills. */
  lemma {:induction false} RunGains<T>(ps: seq<T>, shots: seq<Rect>, rects: seq<Rect>, h0: seq<int>,
                                       scores: seq<int>, sparks: seq<int>)
    requires |ps| <= |shots| && |rects| == |h0| == |scores| == |sparks|
    ensures Run(ps, shots, rects, h0, scores, sparks).gained == KillSum(h0, Run(ps, shots, rects, h0, scores, sparks).hs, scores)
    ensures Run(ps, shots, rects, h0, scores, sparks).spawned == KillSum(h0, Run(ps, shots, rects, h0, scores, sparks).hs, sparks)
  {
    if ps == [] {
      KillSumUnchanged(h0, scores);
      KillSumUnchanged(h0, sparks);
    } else {
      var n := |ps| - 1;
      RunGains(ps[..n], shots, rects, h0, scores, sparks);
      RunHealths(ps[..n], shots, rects, h0, scores, sparks);
      var hs := Run(ps[..n], shots, rects, h0, scores, sparks).hs;
      match FirstHit(rects, hs, shots[n]) {
        case None =>
        case Some(k) =>
          KillSumUpdate(h0, hs, scores, k, DamagedHealth(hs[k], 1));
          KillSumUpdate(h0, hs, sparks, k, DamagedHealth(hs[k], 1));
      }
    }
  }
}
