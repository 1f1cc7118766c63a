/** The rules of phase 2 of Game::checkCollisions (core/game.cpp:490-541) over values: the
    player, alive, meets each opponent in turn. Body contact with an alive opponent costs
    the player one health and erases that opponent (which explodes and scores); otherwise
    each of the opponent's projectiles that overlaps the player costs one health and is
    erased. The scan stops the moment the player's health reaches zero. Nothing moves
    during the phase, so it is a function of the player's hitbox and health and of what
    each opponent looks like when the phase starts. */
module ContactRules {
  import opened Basics

  /** An opponent as phase 2 sees it: its health, its hitbox, its projectiles and their
      hitboxes, its score value and the size of its explosion. */
  datatype Foe<T> = Foe(health: int, body: Rect, shots: seq<T>, bounds: seq<Rect>, score: int, sparks: int)

  predicate Aligned<T>(f: Foe<T>)
  {
    |f.bounds| == |f.shots|
  }

  predicate AllAligned<T>(foes: seq<Foe<T>>)
  {
    forall k :: 0 <= k < |foes| ==> Aligned(foes[k])
  }

  // One opponent's projectiles against the player (core/game.cpp:511-532).

  /** The player's health after a volley and the projectiles the volley leaves. */
  datatype Volley<T> = Volley(health: int, kept: seq<T>)

  /** The projectiles `ps` with hitboxes `bounds`, in order, against the player with hitbox
      `pr` and health `h`: each one that overlaps the player costs one health and is
      erased; the first one that takes the health to zero ends the volley, leaving the
      projectiles after it in place. */
  function Barrage<T>(ps: seq<T>, bounds: seq<Rect>, pr: Rect, h: int): (r: Volley<T>)
    requires |ps| == |bounds| && h > 0
    ensures 0 <= r.health <= h && |r.kept| <= |ps|
    decreases |ps|
  {
    if ps == [] then Volley(h, [])
    else if Overlaps(bounds[0], pr) then
      if DamagedHealth(h, 1) <= 0 then Volley(DamagedHealth(h, 1), ps[1..])
      else Barrage(ps[1..], bounds[1..], pr, DamagedHealth(h, 1))
    else
      var rest := Barrage(ps[1..], bounds[1..], pr, h);
      Volley(rest.health, [ps[0]] + rest.kept)
  }

  /** How many of a list of hitboxes overlap the player's. */
  function Hits(bounds: seq<Rect>, pr: Rect): (n: nat)
    ensures n <= |bounds|
  {
    if bounds == [] then 0 else (if Overlaps(bounds[0], pr) then 1 else 0) + Hits(bounds[1..], pr)
  }

  /** Each projectile a volley erases costs the player exactly one health. */
  lemma {:induction false} BarrageCost<T>(ps: seq<T>, bounds: seq<Rect>, pr: Rect, h: int)
    requires |ps| == |bounds| && h > 0
    ensures h - Barrage(ps, bounds, pr, h).health == |ps| - |Barrage(ps, bounds, pr, h).kept|
    decreases |ps|
  {
    if ps != [] {
      if Overlaps(bounds[0], pr) {
        if DamagedHealth(h, 1) > 0 {
          BarrageCost(ps[1..], bounds[1..], pr, DamagedHealth(h, 1));
        }
      } else {
        BarrageCost(ps[1..], bounds[1..], pr, h);
      }
    }
  }

  /** The player survives a volley exactly when fewer of its projectiles overlap the
      player than the player has health, and then loses one health per overlapping
      projectile; otherwise the health ends at zero. */
  lemma {:induction false} BarrageHealth<T>(ps: seq<T>, bounds: seq<Rect>, pr: Rect, h: int)
    requires |ps| == |bounds| && h > 0
    ensures Barrage(ps, bounds, pr, h).health == if Hits(bounds, pr) < h then h - Hits(bounds, pr) else 0
    decreases |ps|
  {
    if ps != [] {
      if Overlaps(bounds[0], pr) {
        if DamagedHealth(h, 1) > 0 {
          BarrageHealth(ps[1..], bounds[1..], pr, DamagedHealth(h, 1));
        }
      } else {
        BarrageHealth(ps[1..], bounds[1..], pr, h);
      }
    }
  }

  /** A volley only erases: what it keeps comes from the projectiles it started with, and
      no projectile appears twice if none did before. */
  lemma {:induction false} BarrageKeeps<T>(ps: seq<T>, bounds: seq<Rect>, pr: Rect, h: int)
    requires |ps| == |bounds| && h > 0
    ensures forall x :: x in Barrage(ps, bounds, pr, h).kept ==> x in ps
    ensures NoDup(ps) ==> NoDup(Barrage(ps, bounds, pr, h).kept)
    decreases |ps|
  {
    if ps != [] {
      if Overlaps(bounds[0], pr) {
        if DamagedHealth(h, 1) > 0 {
          BarrageKeeps(ps[1..], bounds[1..], pr, DamagedHealth(h, 1));
        }
      } else {
        BarrageKeeps(ps[1..], bounds[1..], pr, h);
        var rest := Barrage(ps[1..], bounds[1..], pr, h).kept;
        if NoDup(ps) {
          assert forall j :: 0 <= j < |rest| ==> rest[j] in ps[1..];
          assert forall j :: 1 <= j < |ps| ==> ps[j] != ps[0];
        }
      }
    }
  }

  /** Barrage started at index `i` of a run, unfolded by one projectile. */
  lemma BarrageAt<T>(ps: seq<T>, bounds: seq<Rect>, pr: Rect, h: int, i: nat)
    requires |ps| == |bounds| && h > 0 && i < |ps|
    ensures Barrage(ps[i..], bounds[i..], pr, h) ==
            if Overlaps(bounds[i], pr) then
              if DamagedHealth(h, 1) <= 0 then Volley(DamagedHealth(h, 1), ps[i + 1..])
              else Barrage(ps[i + 1..], bounds[i + 1..], pr, DamagedHealth(h, 1))
            else
              Volley(Barrage(ps[i + 1..], bounds[i + 1..], pr, h).health, [ps[i]] + Barrage(ps[i + 1..], bounds[i + 1..], pr, h).kept)
  {
    assert ps[i..][1..] == ps[i + 1..] && bounds[i..][1..] == bounds[i + 1..];
  }

  // One opponent against the player (core/game.cpp:492-539).

  /** What meeting one opponent does: the player's new health, whether the opponent is
      erased, the projectiles it keeps, and the score and particles its erasure adds. */
  datatype Encounter<T> = Encounter(health: int, erased: bool, kept: seq<T>, gained: int, spawned: int)

  /** A dead opponent is skipped; an alive one whose hitbox the player's overlaps costs
      the player one health and is erased, scoring and exploding; otherwise its volley is
      resolved. */
  function Meet<T>(f: Foe<T>, pr: Rect, h: int): (m: Encounter<T>)
    requires Aligned(f) && h > 0
    ensures 0 <= m.health <= h
    ensures m.erased <==> f.health > 0 && Overlaps(pr, f.body)
    ensures !m.erased ==> m.gained == 0 && m.spawned == 0
  {
    if f.health <= 0 then Encounter(h, false, f.shots, 0, 0)
    else if Overlaps(pr, f.body) then Encounter(DamagedHealth(h, 1), true, f.shots, f.score, f.sparks)
    else
      var v := Barrage(f.shots, f.bounds, pr, h);
      Encounter(v.health, false, v.kept, 0, 0)
  }

  /** Meeting an opponent costs exactly one health per thing erased: the opponent itself
      or each of its projectiles. */
  lemma MeetCost<T>(f: Foe<T>, pr: Rect, h: int)
    requires Aligned(f) && h > 0
    ensures h - Meet(f, pr, h).health == (if Meet(f, pr, h).erased then 1 else 0) + |f.shots| - |Meet(f, pr, h).kept|
  {
    if f.health > 0 && !Overlaps(pr, f.body) {
      BarrageCost(f.shots, f.bounds, pr, h);
    }
  }

  // The scan over the opponents (core/game.cpp:491-540).

  /** What the scan does: the player's final health and, for each opponent it reached, in
      order, whether it was erased and the projectiles it kept; and the score and particles
      added. The scan reaches every opponent unless the player dies first. */
  datatype Sweep<T> = Sweep(health: int, erased: seq<bool>, lists: seq<seq<T>>, gained: int, spawned: int)

  /** The scan from the first opponent, with the player alive at health `h`. */
  function Scan<T>(foes: seq<Foe<T>>, pr: Rect, h: int): (s: Sweep<T>)
    requires AllAligned(foes) && h > 0
    ensures |s.erased| == |s.lists| <= |foes| && 0 <= s.health <= h
    decreases |foes|
  {
    if foes == [] then Sweep(h, [], [], 0, 0)
    else
      var m := Meet(foes[0], pr, h);
      if m.health <= 0 then Sweep(m.health, [m.erased], [m.kept], m.gained, m.spawned)
      else
        var s := Scan(foes[1..], pr, m.health);
        Sweep(s.health, [m.erased] + s.erased, [m.kept] + s.lists, m.gained + s.gained, m.spawned + s.spawned)
  }

  /** The first opponents' part of a scan followed by the rest of it. */
  function Glue<T>(a: Sweep<T>, b: Sweep<T>): (c: Sweep<T>)
    ensures c.health == b.health && |c.erased| == |a.erased| + |b.erased| && |c.lists| == |a.lists| + |b.lists|
  {
    Sweep(b.health, a.erased + b.erased, a.lists + b.lists, a.gained + b.gained, a.spawned + b.spawned)
  }

  /** The scan started at opponent `i`, unfolded by one opponent. */
  lemma ScanAt<T>(foes: seq<Foe<T>>, pr: Rect, h: int, i: nat)
    requires AllAligned(foes) && h > 0 && i < |foes|
    ensures Scan(foes[i..], pr, h) ==
            var m := Meet(foes[i], pr, h);
            if m.health <= 0 then Sweep(m.health, [m.erased], [m.kept], m.gained, m.spawned)
            else Glue(Sweep(0, [m.erased], [m.kept], m.gained, m.spawned), Scan(foes[i + 1..], pr, m.health))
  {
    assert foes[i..][1..] == foes[i + 1..];
  }

  /** Gluing scans is associative. */
  lemma GlueAssoc<T>(a: Sweep<T>, b: Sweep<T>, c: Sweep<T>)
    ensures Glue(Glue(a, b), c) == Glue(a, Glue(b, c))
  {
    assert (a.erased + b.erased) + c.erased == a.erased + (b.erased + c.erased);
    assert (a.lists + b.lists) + c.lists == a.lists + (b.lists + c.lists);
  }

  /** The part of a scan already done, grown by one more meeting; the meeting's health is
      kept only when the meeting ends the scan. */
  function Extend<T>(acc: Sweep<T>, m: Encounter<T>): (r: Sweep<T>)
    ensures r.erased == acc.erased + [m.erased] && r.lists == acc.lists + [m.kept]
    ensures r.gained == acc.gained + m.gained && r.spawned == acc.spawned + m.spawned
  {
    Glue(acc, Sweep(if m.health <= 0 then m.health else 0, [m.erased], [m.kept], m.gained, m.spawned))
  }

  /** A scan split after its first `i` opponents, moved on by one opponent. */
  lemma ScanStep<T>(foes: seq<Foe<T>>, pr: Rect, h0: int, acc: Sweep<T>, i: nat, h: int)
    requires AllAligned(foes) && h0 > 0 && h > 0 && i < |foes|
    requires Scan(foes, pr, h0) == Glue(acc, Scan(foes[i..], pr, h))
    ensures var m := Meet(foes[i], pr, h);
            if m.health <= 0 then Scan(foes, pr, h0) == Extend(acc, m)
            else Scan(foes, pr, h0) == Glue(Extend(acc, m), Scan(foes[i + 1..], pr, m.health))
  {
    ScanAt(foes, pr, h, i);
    var m := Meet(foes[i], pr, h);
    if m.health > 0 {
      GlueAssoc(acc, Sweep(0, [m.erased], [m.kept], m.gained, m.spawned), Scan(foes[i + 1..], pr, m.health));
    }
  }

  /** A scan split after all of its opponents is the part already done. */
  lemma ScanEnd<T>(foes: seq<Foe<T>>, pr: Rect, h0: int, acc: Sweep<T>, h: int)
    requires AllAligned(foes) && h0 > 0 && h > 0
    requires Scan(foes, pr, h0) == Glue(acc, Scan(foes[|foes|..], pr, h))
    ensures Scan(foes, pr, h0) == Sweep(h, acc.erased, acc.lists, acc.gained, acc.spawned)
  {
    assert foes[|foes|..] == [];
    assert acc.erased + [] == acc.erased && acc.lists + [] == acc.lists;
  }

  /** The number of `true` flags. */
  function Count(bs: seq<bool>): (n: nat)
    ensures n <= |bs|
  {
    if bs == [] then 0 else (if bs[0] then 1 else 0) + Count(bs[1..])
  }

  /** How many projectiles were erased from the opponents a scan reached. */
  function Dropped<T>(foes: seq<Foe<T>>, lists: seq<seq<T>>): int
    requires |lists| <= |foes|
  {
    if lists == [] then 0 else |foes[0].shots| - |lists[0]| + Dropped(foes[1..], lists[1..])
  }

  /** The score values of the opponents a scan erased. */
  function ScoreSum<T>(foes: seq<Foe<T>>, erased: seq<bool>): int
    requires |erased| <= |foes|
  {
    if erased == [] then 0 else (if erased[0] then foes[0].score else 0) + ScoreSum(foes[1..], erased[1..])
  }

  /** The explosion sizes of the opponents a scan erased. */
  function SparkSum<T>(foes: seq<Foe<T>>, erased: seq<bool>): int
    requires |erased| <= |foes|
  {
    if erased == [] then 0 else (if erased[0] then foes[0].sparks else 0) + SparkSum(foes[1..], erased[1..])
  }

  /** Each opponent or projectile the scan erases costs the player exactly one health, and
      nothing else does. */
  lemma {:induction false} ScanCost<T>(foes: seq<Foe<T>>, pr: Rect, h: int)
    requires AllAligned(foes) && h > 0
    ensures h - Scan(foes, pr, h).health == Count(Scan(foes, pr, h).erased) + Dropped(foes, Scan(foes, pr, h).lists)
    decreases |foes|
  {
    if foes != [] {
      var m := Meet(foes[0], pr, h);
      MeetCost(foes[0], pr, h);
      if m.health <= 0 {
        assert [m.erased][1..] == [] && [m.kept][1..] == [];
      } else {
        var s := Scan(foes[1..], pr, m.health);
        ScanCost(foes[1..], pr, m.health);
        assert ([m.erased] + s.erased)[1..] == s.erased;
        assert ([m.kept] + s.lists)[1..] == s.lists;
      }
    }
  }

  /** The scan erases exactly the opponents it reaches that are alive and overlap the
      player, and its score and particles are those of the erased ones. */
  lemma {:induction false} ScanErases<T>(foes: seq<Foe<T>>, pr: Rect, h: int)
    requires AllAligned(foes) && h > 0
    ensures forall k :: 0 <= k < |Scan(foes, pr, h).erased| ==>
              (Scan(foes, pr, h).erased[k] <==> foes[k].health > 0 && Overlaps(pr, foes[k].body))
    ensures Scan(foes, pr, h).gained == ScoreSum(foes, Scan(foes, pr, h).erased)
    ensures Scan(foes, pr, h).spawned == SparkSum(foes, Scan(foes, pr, h).erased)
    decreases |foes|
  {
    if foes != [] {
      var m := Meet(foes[0], pr, h);
      if m.health <= 0 {
        assert [m.erased][1..] == [];
      } else {
        var s := Scan(foes[1..], pr, m.health);
        ScanErases(foes[1..], pr, m.health);
        assert ([m.erased] + s.erased)[1..] == s.erased;
        forall k | 1 <= k < |s.erased| + 1
          ensures ([m.erased] + s.erased)[k] <==> foes[k].health > 0 && Overlaps(pr, foes[k].body)
        {
          assert ([m.erased] + s.erased)[k] == s.erased[k - 1] && foes[1..][k - 1] == foes[k];
        }
      }
    }
  }

  /** The scan stops only when the player dies: while the player lives it reaches every
      opponent, and when it stops early the player's health is zero. */
  lemma {:induction false} ScanStopsOnlyAtDeath<T>(foes: seq<Foe<T>>, pr: Rect, h: int)
    requires AllAligned(foes) && h > 0
    ensures Scan(foes, pr, h).health > 0 ==> |Scan(foes, pr, h).erased| == |foes|
    ensures |Scan(foes, pr, h).erased| < |foes| ==> Scan(foes, pr, h).health == 0
    decreases |foes|
  {
    if foes != [] {
      var m := Meet(foes[0], pr, h);
      if m.health > 0 {
        ScanStopsOnlyAtDeath(foes[1..], pr, m.health);
      }
    }
  }

  // The opponents left after a scan (core/game.cpp:505, the erase of a hit opponent).

  /** The elements whose flag is false, in order. */
  function Keep<O>(xs: seq<O>, erased: seq<bool>): (r: seq<O>)
    requires |xs| == |erased|
    ensures |r| == |xs| - Count(erased)
  {
    if xs == [] then []
    else (if erased[0] then [] else [xs[0]]) + Keep(xs[1..], erased[1..])
  }

  /** Keep over one more element at the end. */
  lemma {:induction false} KeepSnoc<O>(xs: seq<O>, erased: seq<bool>, x: O, e: bool)
    requires |xs| == |erased|
    ensures Keep(xs + [x], erased + [e]) == Keep(xs, erased) + (if e then [] else [x])
    decreases |xs|
  {
    if xs == [] {
      assert Keep([x], [e]) == (if e then [] else [x]) + Keep([x][1..], [e][1..]);
    } else {
      assert (xs + [x])[1..] == xs[1..] + [x] && (erased + [e])[1..] == erased[1..] + [e];
      KeepSnoc(xs[1..], erased[1..], x, e);
    }
  }

  /** Keep over the prefix of a list grown by one element. */
  lemma KeepPrefix<O>(xs: seq<O>, erased: seq<bool>, i: nat, e: bool)
    requires |erased| == i < |xs|
    ensures Keep(xs[..i + 1], erased + [e]) == Keep(xs[..i], erased) + (if e then [] else [xs[i]])
  {
    assert xs[..i + 1] == xs[..i] + [xs[i]];
    KeepSnoc(xs[..i], erased, xs[i], e);
  }

  /** Every opponent not flagged stays. */
  lemma {:induction false} KeepHas<O>(xs: seq<O>, erased: seq<bool>)
    requires |xs| == |erased|
    ensures forall k :: 0 <= k < |xs| && !erased[k] ==> xs[k] in Keep(xs, erased)
    decreases |xs|
  {
    if xs != [] {
      KeepHas(xs[1..], erased[1..]);
      forall k | 1 <= k < |xs| && !erased[k]
        ensures xs[k] in Keep(xs, erased)
      {
        assert xs[1..][k - 1] == xs[k] && erased[1..][k - 1] == erased[k];
      }
    }
  }

  /** Everything kept is an opponent that was not flagged. */
  lemma {:induction false} KeepOnly<O>(xs: seq<O>, erased: seq<bool>)
    requires |xs| == |erased|
    ensures forall x :: x in Keep(xs, erased) ==> exists k :: 0 <= k < |xs| && !erased[k] && xs[k] == x
    decreases |xs|
  {
    if xs != [] {
      KeepOnly(xs[1..], erased[1..]);
      var rest := Keep(xs[1..], erased[1..]);
      forall x | x in Keep(xs, erased)
        ensures exists k :: 0 <= k < |xs| && !erased[k] && xs[k] == x
      {
        if x in rest {
          var j :| 0 <= j < |xs| - 1 && !erased[1..][j] && xs[1..][j] == x;
          assert xs[j + 1] == x && !erased[j + 1];
        } else {
          assert !erased[0] && xs[0] == x;
        }
      }
    }
  }

  /** Keeping some opponents of a list without repeats leaves none either. */
  lemma {:induction false} KeepNoDup<O>(xs: seq<O>, erased: seq<bool>)
    requires |xs| == |erased| && NoDup(xs)
    ensures NoDup(Keep(xs, erased))
    decreases |xs|
  {
    if xs != [] {
      KeepNoDup(xs[1..], erased[1..]);
      KeepOnly(xs[1..], erased[1..]);
      var rest := Keep(xs[1..], erased[1..]);
      var r := Keep(xs, erased);
      forall i, j | 0 <= i < j < |r|
        ensures r[i] != r[j]
      {
        if erased[0] {
          assert r == rest;
        } else {
          assert r == [xs[0]] + rest && r[j] == rest[j - 1] && rest[j - 1] in rest;
          var k :| 0 <= k < |xs| - 1 && !erased[1..][k] && xs[1..][k] == rest[j - 1];
          assert xs[k + 1] == r[j];
          if i > 0 {
            assert r[i] == rest[i - 1];
          }
        }
      }
    }
  }

  // As written, the scan does not always move on (core/game.cpp:535-539).

  /** The list a scan leaves: the flagged opponents among the first `n` are gone and the
      rest follow; it holds nothing new and nothing twice. */
  lemma KeepThenRest<O>(xs: seq<O>, erased: seq<bool>, n: nat)
    requires n <= |xs| && |erased| == n
    ensures forall x :: x in Keep(xs[..n], erased) + xs[n..] ==> x in xs
    ensures NoDup(xs) ==> NoDup(Keep(xs[..n], erased) + xs[n..])
  {
    KeepOnly(xs[..n], erased);
    var front := Keep(xs[..n], erased);
    var r := front + xs[n..];
    forall x | x in r
      ensures x in xs
    {
      if x in front {
        var k :| 0 <= k < n && !erased[k] && xs[..n][k] == x;
      } else {
        var k :| 0 <= k < |xs[n..]| && xs[n..][k] == x;
        assert xs[n + k] == x;
      }
    }
    if NoDup(xs) {
      assert NoDup(xs[..n]);
      KeepNoDup(xs[..n], erased);
      forall i, j | 0 <= i < j < |r|
        ensures r[i] != r[j]
      {
        if j < |front| {
        } else if i >= |front| {
          assert r[i] == xs[n + i - |front|] && r[j] == xs[n + j - |front|];
        } else {
          assert r[i] in front;
          var k :| 0 <= k < n && !erased[k] && xs[..n][k] == r[i];
          assert r[j] == xs[n + j - |front|];
        }
      }
    }
  }

  /** Where the scan as written stands: the opponent it is at, the player's health, the
      opponents with their projectiles as they now are, and whether it has returned. */
  datatype Pass<T> = Pass(index: nat, health: int, foes: seq<Foe<T>>, done: bool)

  /** One turn of the scan's outer loop as written, with `gameOver` the game state when
      the scan started (the scan only sets it on the player's death, and then returns).
      An erased opponent moves the scan on through the erase; after a volley the scan
      moves on only if the state is not GAME_OVER. */
  function TurnAsWritten<T>(p: Pass<T>, pr: Rect, gameOver: bool): (q: Pass<T>)
    requires AllAligned(p.foes)
    ensures AllAligned(q.foes) && |q.foes| == |p.foes|
  {
    if p.done || p.index >= |p.foes| || p.health <= 0 then p.(done := true)
    else
      var f := p.foes[p.index];
      if f.health <= 0 then p.(index := p.index + 1)
      else if Overlaps(pr, f.body) then
        var h := DamagedHealth(p.health, 1);
        p.(index := p.index + 1, health := h, done := h <= 0)
      else
        var v := Barrage(f.shots, f.bounds, pr, p.health);
        var vb := Barrage(f.bounds, f.bounds, pr, p.health);
        var foes := p.foes[p.index := f.(shots := v.kept, bounds := vb.kept)];
        assert Aligned(foes[p.index]) by {
          BarrageCost(f.shots, f.bounds, pr, p.health);
          BarrageCost(f.bounds, f.bounds, pr, p.health);
          BarrageHealth(f.shots, f.bounds, pr, p.health);
          BarrageHealth(f.bounds, f.bounds, pr, p.health);
        }
        if v.health <= 0 then Pass(p.index, v.health, foes, true)
        else Pass(if gameOver then p.index else p.index + 1, v.health, foes, false)
  }

  /** Turns of the scan as written. */
  function TurnsAsWritten<T>(p: Pass<T>, pr: Rect, gameOver: bool, n: nat): (q: Pass<T>)
    requires AllAligned(p.foes)
    ensures AllAligned(q.foes)
    decreases n
  {
    if n == 0 then p else TurnsAsWritten(TurnAsWritten(p, pr, gameOver), pr, gameOver, n - 1)
  }

  /** With the state already GAME_OVER, an alive opponent that neither touches the player
      nor has a projectile on the player is a fixed point of the outer loop: the scan
      never returns and never reaches the end. */
  lemma {:induction false} StuckAsWritten<T>(p: Pass<T>, pr: Rect, n: nat)
    requires AllAligned(p.foes) && !p.done && p.index < |p.foes| && p.health > 0
    requires p.foes[p.index].health > 0 && !Overlaps(pr, p.foes[p.index].body)
    requires Hits(p.foes[p.index].bounds, pr) == 0
    ensures TurnsAsWritten(p, pr, true, n) == p
    decreases n
  {
    if n > 0 {
      var f := p.foes[p.index];
      NoHitsKeepsAll(f.shots, f.bounds, pr, p.health);
      NoHitsKeepsAll(f.bounds, f.bounds, pr, p.health);
      assert f.(shots := f.shots, bounds := f.bounds) == f;
      assert p.foes[p.index := f] == p.foes;
      assert TurnAsWritten(p, pr, true) == p;
      StuckAsWritten(p, pr, n - 1);
    }
  }

  /** A volley none of whose projectiles overlaps the player changes nothing. */
  lemma {:induction false} NoHitsKeepsAll<T>(ps: seq<T>, bounds: seq<Rect>, pr: Rect, h: int)
    requires |ps| == |bounds| && h > 0 && Hits(bounds, pr) == 0
    ensures Barrage(ps, bounds, pr, h) == Volley(h, ps)
    decreases |ps|
  {
    if ps != [] {
      NoHitsKeepsAll(ps[1..], bounds[1..], pr, h);
      assert [ps[0]] + ps[1..] == ps;
    }
  }

  /** A concrete case: the game is already over when the scan starts (the world's health
      ran out earlier in the same update), the player at full health is at the origin and
      one alive opponent with no projectiles is far from it. */
  const STUCK_START: Pass<int> := Pass(0, 10, [Foe(3, Rect(500.0, 0.0, 40.0, 40.0), [], [], 300, 120)], false)
  const STUCK_PLAYER: Rect := Rect(0.0, 0.0, 50.0, 50.0)

  /** In that case, after any number of turns the scan as written is still at that
      opponent, not done. */
  lemma StuckExample(n: nat)
    ensures TurnsAsWritten(STUCK_START, STUCK_PLAYER, true, n) == STUCK_START
    ensures !STUCK_START.done && STUCK_START.index < |STUCK_START.foes|
  {
    StuckAsWritten(STUCK_START, STUCK_PLAYER, n);
  }

  /** The corrected scan moves on after every opponent it meets and the player survives:
      from opponent `i` it continues at `i + 1`. */
  lemma ScanMovesOn<T>(foes: seq<Foe<T>>, pr: Rect, h: int, i: nat)
    requires AllAligned(foes) && h > 0 && i < |foes| && Meet(foes[i], pr, h).health > 0
    ensures Scan(foes[i..], pr, h) ==
            Glue(Sweep(0, [Meet(foes[i], pr, h).erased], [Meet(foes[i], pr, h).kept],
                       Meet(foes[i], pr, h).gained, Meet(foes[i], pr, h).spawned),
                 Scan(foes[i + 1..], pr, Meet(foes[i], pr, h).health))
  {
    ScanAt(foes, pr, h, i);
  }
}
