/** core/game.cpp and core/game.h: the game's screens, the per-frame simulation rules, the
    camera and the high-score table it keeps. The window, renderer, fonts, sounds and the
    frame loop of `run` are not modelled; the events of one poll arrive as a sequence, the
    keyboard state as a `Keys` record, and the high-score file as the sequence of its
    lines held in `scoreFile`. */
module Games {
  import opened Basics
  import opened Events
  import opened Particles
  import opened Projectiles
  import opened Players
  import opened Opponents
  import opened HighScores
  import opened ScoreFile
  import opened NameEntry
  import opened Collisions
  import opened ShotRules
  import opened ContactRules

  /** GameState (core/game.h:23-28). */
  datatype GameState = Menu | Playing | GameOver | HowToPlay

  /** Config::Game::WORLD_WIDTH and WORLD_HEIGHT (core/config.h:26-27). */
  const WORLD_WIDTH: real := 6400.0
  const WORLD_HEIGHT: real := 600.0
  /** The world health a game starts with. */
  const INITIAL_WORLD_HEALTH: int := 10
  /** Where playGame puts the player: horizontally centred in the world, 80 by 48. */
  const PLAYER_START: Rect := Rect(WORLD_WIDTH / 2.0 - 40.0, 500.0, 80.0, 48.0)
  /** Projectiles are dropped once they are this far outside the world. */
  const OFFSCREEN_MARGIN: real := 100.0

  /** The three menu buttons, placed with integer division of the window size. */
  function PlayButton(windowWidth: nat, windowHeight: nat): Rect
  {
    Rect((windowWidth / 2 - 100) as real, (windowHeight / 2 - 60) as real, 200.0, 50.0)
  }

  function HowToPlayButton(windowWidth: nat, windowHeight: nat): Rect
  {
    Rect((windowWidth / 2 - 100) as real, (windowHeight / 2) as real, 200.0, 50.0)
  }

  function ExitButton(windowWidth: nat, windowHeight: nat): Rect
  {
    Rect((windowWidth / 2 - 100) as real, (windowHeight / 2 + 60) as real, 200.0, 50.0)
  }

  /** No point lies on two menu buttons, so the order in which a click is tested against
      them never matters. */
  lemma MenuButtonsDisjoint(x: int, y: int, windowWidth: nat, windowHeight: nat)
    ensures !(PointInRect(x, y, PlayButton(windowWidth, windowHeight)) && PointInRect(x, y, HowToPlayButton(windowWidth, windowHeight)))
    ensures !(PointInRect(x, y, PlayButton(windowWidth, windowHeight)) && PointInRect(x, y, ExitButton(windowWidth, windowHeight)))
    ensures !(PointInRect(x, y, HowToPlayButton(windowWidth, windowHeight)) && PointInRect(x, y, ExitButton(windowWidth, windowHeight)))
  {
  }

  /** What one event does on the menu screen (core/game.cpp:115-138). */
  datatype MenuAction = NoAction | StartGame | ShowHowToPlay | ExitGame

  function MenuActionOf(e: Event, windowWidth: nat, windowHeight: nat): (a: MenuAction)
    ensures e == Quit || e == KeyDown(KEY_ESCAPE) ==> a == ExitGame
    ensures e == KeyDown(KEY_RETURN) ==> a == StartGame
    ensures e.KeyDown? && e.key != KEY_ESCAPE && e.key != KEY_RETURN ==> a == NoAction
    ensures e.OtherEvent? ==> a == NoAction
    ensures e.MouseButtonDown? && a == StartGame ==> PointInRect(TruncToInt(e.x), TruncToInt(e.y), PlayButton(windowWidth, windowHeight))
    ensures e.MouseButtonDown? && a == ShowHowToPlay ==> PointInRect(TruncToInt(e.x), TruncToInt(e.y), HowToPlayButton(windowWidth, windowHeight))
    ensures e.MouseButtonDown? && a == ExitGame ==> PointInRect(TruncToInt(e.x), TruncToInt(e.y), ExitButton(windowWidth, windowHeight))
  {
    match e
    case Quit => ExitGame
    case KeyDown(key) =>
      if key == KEY_ESCAPE then ExitGame else if key == KEY_RETURN then StartGame else NoAction
    case MouseButtonDown(_, x, y) =>
      var mx, my := TruncToInt(x), TruncToInt(y);
      if PointInRect(mx, my, PlayButton(windowWidth, windowHeight)) then StartGame
      else if PointInRect(mx, my, HowToPlayButton(windowWidth, windowHeight)) then ShowHowToPlay
      else if PointInRect(mx, my, ExitButton(windowWidth, windowHeight)) then ExitGame
      else NoAction
    case OtherEvent => NoAction
  }

  /** The screen after a run of menu actions: the last one that changes screens wins. */
  function MenuScreenAfter(s: GameState, actions: seq<MenuAction>): (t: GameState)
    ensures (forall k :: 0 <= k < |actions| ==> actions[k] == NoAction || actions[k] == ExitGame) ==> t == s
    ensures t == s || t == Playing || t == HowToPlay
  {
    if |actions| == 0 then s
    else
      var before := MenuScreenAfter(s, actions[..|actions| - 1]);
      match actions[|actions| - 1]
      case StartGame => Playing
      case ShowHowToPlay => HowToPlay
      case _ => before
  }

  function MenuActions(events: seq<Event>, windowWidth: nat, windowHeight: nat): (actions: seq<MenuAction>)
    ensures |actions| == |events|
    ensures forall k :: 0 <= k < |events| ==> actions[k] == MenuActionOf(events[k], windowWidth, windowHeight)
  {
    seq(|events|, k requires 0 <= k < |events| => MenuActionOf(events[k], windowWidth, windowHeight))
  }

  /** An event that leaves the how-to-play screen (core/game.cpp:828-835). */
  predicate LeavesHowToPlay(e: Event)
  {
    e == KeyDown(KEY_ESCAPE) || e == KeyDown(KEY_RETURN) || e.MouseButtonDown?
  }

  /** The position of the first Escape key press, |events| when there is none. */
  function FirstEscape(events: seq<Event>): (n: nat)
    ensures n <= |events|
    ensures forall k :: 0 <= k < n ==> events[k] != KeyDown(KEY_ESCAPE)
    ensures n < |events| ==> events[n] == KeyDown(KEY_ESCAPE)
  {
    if |events| == 0 || events[0] == KeyDown(KEY_ESCAPE) then 0 else 1 + FirstEscape(events[1..])
  }

  /** The camera position updateCamera chooses: the player's left edge half a window to the
      right of the view's left edge, clamped to the world (core/game.cpp:548-552). */
  function CameraTarget(playerX: real, windowWidth: int): (cameraX: real)
    ensures cameraX <= WORLD_WIDTH - windowWidth as real || cameraX == 0.0
    ensures cameraX >= 0.0 || cameraX == WORLD_WIDTH - windowWidth as real
  {
    var target := playerX - windowWidth as real / 2.0;
    var low := if target < 0.0 then 0.0 else target;
    if low > WORLD_WIDTH - windowWidth as real then WORLD_WIDTH - windowWidth as real else low
  }

  /** When the window is no wider than the world, the camera stays inside the world, and it
      follows the player exactly while that keeps it inside. */
  lemma {:induction false} CameraInWorld(playerX: real, windowWidth: int)
    requires 0 <= windowWidth && windowWidth as real <= WORLD_WIDTH
    ensures 0.0 <= CameraTarget(playerX, windowWidth) <= WORLD_WIDTH - windowWidth as real
    ensures var target := playerX - windowWidth as real / 2.0;
      0.0 <= target <= WORLD_WIDTH - windowWidth as real ==> CameraTarget(playerX, windowWidth) == target
  {
  }

  /** The player's rectangle pushed back inside the world, left and top first
      (core/game.cpp:287-295). */
  function Clamped(r: Rect, worldWidth: real, worldHeight: real): (c: Rect)
    ensures c.w == r.w && c.h == r.h
    ensures 0.0 <= r.x && r.x + r.w <= worldWidth ==> c.x == r.x
    ensures 0.0 <= r.y && r.y + r.h <= worldHeight ==> c.y == r.y
  {
    var cx := if r.x < 0.0 then 0.0 else r.x;
    var cy := if r.y < 0.0 then 0.0 else r.y;
    var cx' := if cx + r.w > worldWidth then worldWidth - r.w else cx;
    var cy' := if cy + r.h > worldHeight then worldHeight - r.h else cy;
    Rect(cx', cy', r.w, r.h)
  }

  /** A player no larger than the world ends up wholly inside it. */
  lemma ClampedInside(r: Rect, worldWidth: real, worldHeight: real)
    requires 0.0 <= r.w <= worldWidth && 0.0 <= r.h <= worldHeight
    ensures var c := Clamped(r, worldWidth, worldHeight);
      0.0 <= c.x && c.x + c.w <= worldWidth && 0.0 <= c.y && c.y + c.h <= worldHeight
  {
  }

  /** A rectangle more than the margin outside the world (core/game.cpp:329, 348). */
  predicate OutOfWorld(b: Rect, worldWidth: real, worldHeight: real)
  {
    b.x + b.w < -OFFSCREEN_MARGIN || b.x > worldWidth + OFFSCREEN_MARGIN ||
    b.y + b.h < -OFFSCREEN_MARGIN || b.y > worldHeight + OFFSCREEN_MARGIN
  }

  /** Every entry can be written to the score file and read back: its name is one token
      and its score fits an `int`. */
  predicate Storable(list: seq<HighScore>)
  {
    forall k :: 0 <= k < |list| ==> IsToken(list[k].name) && INT_MIN <= list[k].score <= INT_MAX
  }

  /** Inserting a storable entry into a storable table keeps it storable. */
  lemma InsertedStorable(list: seq<HighScore>, name: string, score: int)
    requires Storable(list) && IsToken(StoredName(name)) && INT_MIN <= score <= INT_MAX
    ensures Storable(Inserted(list, name, score))
  {
    var r := Inserted(list, name, score);
    var i := HighScoreIndex(list, score);
    if i != -1 {
      forall k | 0 <= k < |r| ensures IsToken(r[k].name) && INT_MIN <= r[k].score <= INT_MAX {
        if k < i {
          assert r[k] == r[..i][k] == list[k];
        }
      }
    }
  }

  /** The read loop of loadHighScores (core/game.cpp:602-613) over the lines as they
      parse: keep the entries that parse, until the lines end or 10 are kept. */
  method KeepParsed(parsed: seq<Option<HighScore>>) returns (list: seq<HighScore>)
    ensures list == Kept(parsed, MAX_HIGH_SCORES)
  {
    list := [];
    var i := 0;
    while i < |parsed| && |list| < MAX_HIGH_SCORES
      invariant 0 <= i <= |parsed| && |list| <= MAX_HIGH_SCORES
      invariant list + Kept(parsed[i..], MAX_HIGH_SCORES - |list|) == Kept(parsed, MAX_HIGH_SCORES)
    {
      assert parsed[i..][1..] == parsed[i + 1..];
      KeptStep(parsed[i..], MAX_HIGH_SCORES - |list|);
      if parsed[i].Some? {
        ghost var later := Kept(parsed[i + 1..], MAX_HIGH_SCORES - |list| - 1);
        assert list + ([parsed[i].value] + later) == (list + [parsed[i].value]) + later;
        list := list + [parsed[i].value];
      }
      i := i + 1;
    }
    if i < |parsed| {
      assert Kept(parsed[i..], 0) == [];
    } else {
      assert parsed[i..] == [];
    }
    assert list + [] == list;
  }

  /** loadHighScores' reading of the file (core/game.cpp:597-613): every entry kept
      parses from a line of the file, so it can be written back. */
  method ReadEntries(lines: seq<string>) returns (list: seq<HighScore>)
    ensures list == Kept(ParsedLines(lines), MAX_HIGH_SCORES)
    ensures |list| <= MAX_HIGH_SCORES && Storable(list)
  {
    list := KeepParsed(ParsedLines(lines));
    LoadedWellFormed(lines, MAX_HIGH_SCORES);
  }

  /** Reordering entries keeps them storable. */
  lemma PermutationStorable(list: seq<HighScore>, reordered: seq<HighScore>)
    requires Storable(list) && multiset(reordered) == multiset(list)
    ensures Storable(reordered)
  {
    forall k | 0 <= k < |reordered| ensures IsToken(reordered[k].name) && INT_MIN <= reordered[k].score <= INT_MAX {
      assert reordered[k] in multiset(list);
    }
  }

  /** The vector insert and pop_back of addHighScore (core/game.cpp:663-669), for a score
      that ranks. */
  method InsertEntry(list: seq<HighScore>, name: string, score: int) returns (r: seq<HighScore>)
    requires HighScoreIndex(list, score) != -1
    ensures r == Inserted(list, name, score)
  {
    var index := HighScoreIndex(list, score);
    r := list[..index] + [HighScore(StoredName(name), score)] + list[index..];
    if |r| > MAX_HIGH_SCORES {
      r := r[..|r| - 1];
    }
  }

  /** The kind `rand() % 3` selects. */
  function SpawnKind(draw: nat): (kind: Kind)
    ensures draw % 3 == 0 <==> kind == BasicOpponent
    ensures draw % 3 == 1 <==> kind == AggressiveOpponent
  {
    var k := RandMod(draw, 3);
    if k == 0 then BasicOpponent else if k == 1 then AggressiveOpponent else SniperOpponent
  }

  /** The side of the square each kind spawns with. */
  function SpawnSize(kind: Kind): real
  {
    match kind
    case BasicOpponent => 40.0
    case AggressiveOpponent => 45.0
    case SniperOpponent => 35.0
  }

  /** The opponents the prune of update keeps: those alive and not below the world
      (core/game.cpp:305-319), in order. */
  function Survivors(ops: seq<Opponent>, worldHeight: real): (r: seq<Opponent>)
    reads set o | o in ops
    ensures |r| <= |ops|
  {
    if |ops| == 0 then []
    else
      var o := ops[|ops| - 1];
      Survivors(ops[..|ops| - 1], worldHeight) + (if o.rect.y <= worldHeight && o.IsAlive() then [o] else [])
  }

  /** How many basic opponents are below the world; the prune charges one world health
      for each. */
  function FallenBasic(ops: seq<Opponent>, worldHeight: real): (n: nat)
    reads set o | o in ops
    ensures n <= |ops|
  {
    if |ops| == 0 then 0
    else
      var o := ops[|ops| - 1];
      FallenBasic(ops[..|ops| - 1], worldHeight) + (if o.rect.y > worldHeight && o.kind == BasicOpponent then 1 else 0)
  }

  /** An opponent survives the prune exactly when it was there, is alive and is not below
      the world; survivors of a list without repeats have none either. */
  lemma {:induction false} SurvivorsMembers(ops: seq<Opponent>, worldHeight: real)
    ensures forall o :: o in Survivors(ops, worldHeight) <==> o in ops && o.rect.y <= worldHeight && o.IsAlive()
    ensures NoDup(ops) ==> NoDup(Survivors(ops, worldHeight))
  {
    if |ops| > 0 {
      var front := ops[..|ops| - 1];
      SurvivorsMembers(front, worldHeight);
      assert ops == front + [ops[|ops| - 1]];
      assert NoDup(ops) ==> ops[|ops| - 1] !in front;
    }
  }

  /** Only a basic opponent leaving the bottom of the world costs world health: dead
      opponents, and opponents of the other kinds, are removed for free. */
  lemma {:induction false} OnlyFallenBasicCost(ops: seq<Opponent>, worldHeight: real)
    ensures (forall k :: 0 <= k < |ops| ==> ops[k].rect.y <= worldHeight || ops[k].kind != BasicOpponent) <==>
            FallenBasic(ops, worldHeight) == 0
  {
    if |ops| > 0 {
      OnlyFallenBasicCost(ops[..|ops| - 1], worldHeight);
    }
  }

  /** Survivors and FallenBasic over one more opponent. */
  lemma PruneStep(seen: seq<Opponent>, o: Opponent, worldHeight: real)
    ensures Survivors(seen + [o], worldHeight) ==
            Survivors(seen, worldHeight) + (if o.rect.y <= worldHeight && o.IsAlive() then [o] else [])
    ensures FallenBasic(seen + [o], worldHeight) ==
            FallenBasic(seen, worldHeight) + (if o.rect.y > worldHeight && o.kind == BasicOpponent then 1 else 0)
  {
    assert (seen + [o])[..|seen|] == seen;
  }

  /** How many opponents are alive aggressive ones: each draws once from rand() per
      update. */
  function AliveAggressive(ops: seq<Opponent>): (n: nat)
    reads set o | o in ops
    ensures n <= |ops|
  {
    if |ops| == 0 then 0
    else
      var o := ops[|ops| - 1];
      AliveAggressive(ops[..|ops| - 1]) + (if o.kind == AggressiveOpponent && o.IsAlive() then 1 else 0)
  }

  /** The projectiles within the margin around the world, in order. */
  function InWorld(ps: seq<Projectile>, worldWidth: real, worldHeight: real): (r: seq<Projectile>)
    reads set p | p in ps
    ensures |r| <= |ps|
  {
    if |ps| == 0 then []
    else
      var p := ps[|ps| - 1];
      InWorld(ps[..|ps| - 1], worldWidth, worldHeight) + (if !OutOfWorld(p.rect, worldWidth, worldHeight) then [p] else [])
  }

  /** A projectile is kept exactly when it was there and is not out of the world; the kept
      projectiles of a list without repeats have none either. */
  lemma {:induction false} InWorldMembers(ps: seq<Projectile>, worldWidth: real, worldHeight: real)
    ensures forall p :: p in InWorld(ps, worldWidth, worldHeight) <==> p in ps && !OutOfWorld(p.rect, worldWidth, worldHeight)
    ensures NoDup(ps) ==> NoDup(InWorld(ps, worldWidth, worldHeight))
  {
    if |ps| > 0 {
      var front := ps[..|ps| - 1];
      InWorldMembers(front, worldWidth, worldHeight);
      assert ps == front + [ps[|ps| - 1]];
      assert NoDup(ps) ==> ps[|ps| - 1] !in front;
    }
  }

  /** InWorld over one more projectile. */
  lemma InWorldStep(ps: seq<Projectile>, i: nat, worldWidth: real, worldHeight: real)
    requires i < |ps|
    ensures InWorld(ps[..i + 1], worldWidth, worldHeight) ==
            InWorld(ps[..i], worldWidth, worldHeight) + (if !OutOfWorld(ps[i].rect, worldWidth, worldHeight) then [ps[i]] else [])
  {
    assert ps[..i + 1][..i] == ps[..i];
  }

  /** The player-projectile loop of update (core/game.cpp:322-335): each projectile moves
      once more and is dropped when it is out of the world. Whether a projectile is
      dropped depends on its own box alone, so moving all of them first and then pruning
      gives the same list as the source's single pass. */
  method AdvanceAndPrune(ps: seq<Projectile>, dt: real, worldWidth: real, worldHeight: real)
    returns (kept: seq<Projectile>)
    requires NoDup(ps)
    modifies set p | p in ps
    ensures forall i :: 0 <= i < |ps| ==>
              ps[i].age == old(ps[i].age) + dt && ps[i].rect == Advance(old(ps[i].rect), ps[i].velocity, dt)
    ensures kept == InWorld(ps, worldWidth, worldHeight)
  {
    UpdateAll(ps, dt);
    kept := PruneOutOfWorld(ps, worldWidth, worldHeight);
  }

  /** The prune loop for an opponent's projectiles (core/game.cpp:345-353). */
  method PruneOutOfWorld(ps: seq<Projectile>, worldWidth: real, worldHeight: real) returns (kept: seq<Projectile>)
    ensures kept == InWorld(ps, worldWidth, worldHeight)
  {
    kept := [];
    var i := 0;
    while i < |ps|
      invariant 0 <= i <= |ps|
      invariant kept == InWorld(ps[..i], worldWidth, worldHeight)
    {
      InWorldStep(ps, i, worldWidth, worldHeight);
      if !OutOfWorld(ps[i].rect, worldWidth, worldHeight) {
        kept := kept + [ps[i]];
      }
      i := i + 1;
    }
    assert ps[..|ps|] == ps;
  }

  /** The particles still alive, in order. */
  function LiveParticles(ps: seq<Particle>, isAlive: Particle -> bool): (r: seq<Particle>)
    ensures |r| <= |ps|
  {
    if |ps| == 0 then []
    else
      var q := ps[|ps| - 1];
      LiveParticles(ps[..|ps| - 1], isAlive) + (if isAlive(q) then [q] else [])
  }

  /** The prune's state after the opponents `seen`: the survivors kept, one world health
      charged per fallen basic opponent, and the game over once such a charge reaches 0. */
  ghost predicate PrunedSoFar(seen: seq<Opponent>, worldHeight: real, worldHealth: int, state: GameState,
                              kept: seq<Opponent>, health: int, newState: GameState)
    reads set o | o in seen
  {
    kept == Survivors(seen, worldHeight) &&
    health == worldHealth - FallenBasic(seen, worldHeight) &&
    newState == if FallenBasic(seen, worldHeight) > 0 && health <= 0 then GameOver else state
  }

  /** One turn of the prune keeps `PrunedSoFar` for one more opponent. */
  lemma PruneTurn(seen: seq<Opponent>, o: Opponent, worldHeight: real, worldHealth: int, state: GameState,
                  kept: seq<Opponent>, health: int, newState: GameState,
                  kept': seq<Opponent>, health': int, newState': GameState)
    requires PrunedSoFar(seen, worldHeight, worldHealth, state, kept, health, newState)
    requires kept' == kept + (if o.rect.y <= worldHeight && o.IsAlive() then [o] else [])
    requires health' == health - (if o.rect.y > worldHeight && o.kind == BasicOpponent then 1 else 0)
    requires newState' == if health' < health && health' <= 0 then GameOver else newState
    ensures PrunedSoFar(seen + [o], worldHeight, worldHealth, state, kept', health', newState')
  {
    PruneStep(seen, o, worldHeight);
  }

  /** One turn of the opponent prune (core/game.cpp:306-318): an opponent below the world
      is erased, and a basic one costs a world health, switching to the game-over state
      when that brings it to 0 or below; an alive opponent inside the world is kept; a dead
      one is erased for free. */
  method PruneOne(o: Opponent, worldHeight: real, kept: seq<Opponent>, health: int, state: GameState)
    returns (kept': seq<Opponent>, health': int, state': GameState)
    ensures kept' == kept + (if o.rect.y <= worldHeight && o.IsAlive() then [o] else [])
    ensures health' == health - (if o.rect.y > worldHeight && o.kind == BasicOpponent then 1 else 0)
    ensures state' == if health' < health && health' <= 0 then GameOver else state
  {
    kept', health', state' := kept, health, state;
    if o.rect.y > worldHeight {
      if o.kind == BasicOpponent {
        health' := health' - 1;
        if health' <= 0 {
          state' := GameOver;
        }
      }
    } else if o.IsAlive() {
      kept' := kept' + [o];
    }
  }

  /** The erase loop of the opponent prune (core/game.cpp:305-319) over the opponent list,
      charging the world health and switching to the game-over state. */
  method PruneOpponentList(ops: seq<Opponent>, worldHeight: real, worldHealth: int, state: GameState)
    returns (kept: seq<Opponent>, health: int, newState: GameState)
    ensures kept == Survivors(ops, worldHeight)
    ensures health == worldHealth - FallenBasic(ops, worldHeight)
    ensures newState == if FallenBasic(ops, worldHeight) > 0 && health <= 0 then GameOver else state
    ensures (forall o :: o in kept ==> o in ops) && (NoDup(ops) ==> NoDup(kept))
  {
    kept, health, newState := [], worldHealth, state;
    var i := 0;
    ghost var seen: seq<Opponent> := [];
    while i < |ops|
      invariant 0 <= i <= |ops|
      invariant seen == ops[..i]
      invariant PrunedSoFar(seen, worldHeight, worldHealth, state, kept, health, newState)
    {
      var o := ops[i];
      var kept', health', newState' := PruneOne(o, worldHeight, kept, health, newState);
      PruneTurn(seen, o, worldHeight, worldHealth, state, kept, health, newState, kept', health', newState');
      kept, health, newState := kept', health', newState';
      assert ops[..i + 1] == seen + [o];
      seen := seen + [o];
      i := i + 1;
    }
    assert seen == ops;
    assert (forall o :: o in kept ==> o in ops) && (NoDup(ops) ==> NoDup(kept)) by {
      SurvivorsMembers(ops, worldHeight);
    }
  }

  /** The step for one opponent's projectiles in update (core/game.cpp:341-353): each moves,
      then those out of the world are dropped. */
  method AdvanceOpponentProjectiles(o: Opponent, dt: real, worldWidth: real, worldHeight: real)
    requires o.Valid()
    modifies o, set p | p in o.projectiles
    ensures o.Valid()
    ensures forall p :: p in old(o.projectiles) ==>
              p.age == old(p.age) + dt && p.rect == Advance(old(p.rect), p.velocity, dt)
    ensures o.projectiles == InWorld(old(o.projectiles), worldWidth, worldHeight)
    ensures forall p :: p in o.projectiles ==> p in old(o.projectiles) && !OutOfWorld(p.rect, worldWidth, worldHeight)
    ensures o.rect == old(o.rect) && o.health == old(o.health) && o.fireTimer == old(o.fireTimer)
  {
    UpdateAll(o.projectiles, dt);
    var kept := PruneOutOfWorld(o.projectiles, worldWidth, worldHeight);
    InWorldMembers(o.projectiles, worldWidth, worldHeight);
    o.projectiles := kept;
  }

  /** A particle is kept exactly when it was there and is alive. */
  lemma {:induction false} LiveParticlesMembers(ps: seq<Particle>, isAlive: Particle -> bool)
    ensures forall q :: q in LiveParticles(ps, isAlive) <==> q in ps && isAlive(q)
  {
    if |ps| > 0 {
      LiveParticlesMembers(ps[..|ps| - 1], isAlive);
      assert ps == ps[..|ps| - 1] + [ps[|ps| - 1]];
    }
  }

  /** LiveParticles over one more particle. */
  lemma LiveParticlesStep(ps: seq<Particle>, j: nat, isAlive: Particle -> bool)
    requires j < |ps|
    ensures LiveParticles(ps[..j + 1], isAlive) ==
            LiveParticles(ps[..j], isAlive) + (if isAlive(ps[j]) then [ps[j]] else [])
  {
    assert ps[..j + 1][..j] == ps[..j];
  }

  /** The erase loop of the particle step of update (core/game.cpp:356-363). */
  method PruneDeadParticles(ps: seq<Particle>, isAlive: Particle -> bool) returns (kept: seq<Particle>)
    ensures kept == LiveParticles(ps, isAlive)
  {
    kept := [];
    var i := 0;
    while i < |ps|
      invariant 0 <= i <= |ps|
      invariant kept == LiveParticles(ps[..i], isAlive)
    {
      LiveParticlesStep(ps, i, isAlive);
      if isAlive(ps[i]) {
        kept := kept + [ps[i]];
      }
      i := i + 1;
    }
    assert ps[..|ps|] == ps;
  }

  /** The opponent loop of update (core/game.cpp:298-303): every alive opponent runs its
      update with the player's position; dead ones are skipped. Each alive aggressive
      opponent uses one draw. */
  method UpdateEach(ops: seq<Opponent>, dt: real, playerPos: Point, cameraX: real, screenWidth: int,
                    sin: real -> real, sqrt: real -> real, rng: nat -> nat, cursor: nat)
    returns (next: nat)
    requires NoDup(ops) && (forall o :: o in ops ==> o.Valid()) && IsSine(sin)
    modifies ops, OpponentShots(ops)
    ensures next == cursor + old(AliveAggressive(ops))
    ensures forall o :: o in ops ==> o.Valid() && o.health == old(o.health)
    ensures forall o :: o in ops && !old(o.IsAlive()) ==>
              o.rect == old(o.rect) && o.projectiles == old(o.projectiles) && o.fireTimer == old(o.fireTimer)
    ensures forall o :: o in ops && o.kind == BasicOpponent ==> o.projectiles == []
  {
    OpponentShotsHas(ops);
    next := cursor;
    var i := 0;
    while i < |ops|
      invariant 0 <= i <= |ops|
      invariant next == cursor + old(AliveAggressive(ops[..i]))
      invariant forall k :: 0 <= k < |ops| ==> ops[k].Valid() && ops[k].health == old(ops[k].health)
      invariant forall k :: 0 <= k < |ops| && (i <= k || old(ops[k].health) <= 0) ==>
                  ops[k].rect == old(ops[k].rect) && ops[k].projectiles == old(ops[k].projectiles) &&
                  ops[k].fireTimer == old(ops[k].fireTimer)
    {
      var o := ops[i];
      assert old(AliveAggressive(ops[..i + 1])) ==
             old(AliveAggressive(ops[..i])) + (if o.kind == AggressiveOpponent && old(o.health) > 0 then 1 else 0) by {
        assert ops[..i + 1][..i] == ops[..i];
      }
      if o.IsAlive() {
        next := o.Update(dt, playerPos, cameraX, screenWidth, sin, sqrt, rng, next);
      }
      i := i + 1;
    }
    assert ops[..|ops|] == ops;
  }

  /** The poll loops of handleEvents (core/game.cpp:196-210, 215-224) over the events before
      `stop`: a Quit event clears the running flag and nothing sets it again. */
  method PollQuit(events: seq<Event>, stop: nat, running: bool) returns (stillRunning: bool)
    requires stop <= |events|
    ensures stillRunning == (running && Quit !in events[..stop])
  {
    stillRunning := running;
    var i := 0;
    while i < stop
      invariant 0 <= i <= stop
      invariant stillRunning == (running && Quit !in events[..i])
    {
      assert events[..i + 1] == events[..i] + [events[i]];
      if events[i] == Quit {
        stillRunning := false;
      }
      i := i + 1;
    }
  }

  /** The 'X' button of the plain game-over screen: a 20x20 square 10 pixels in from the
      top-right corner (core/game.cpp:688-694). */
  function CloseButton(windowWidth: nat): (r: Rect)
    ensures r.x + r.w + 10.0 == windowWidth as real && r.y == 10.0 && r.w == r.h == 20.0
  {
    Rect((windowWidth as int - 20 - 10) as real, 10.0, 20.0, 20.0)
  }

  /** An event that closes the plain game-over screen: Quit, Return or Escape, or a left
      click whose truncated position lies in the 'X' button (core/game.cpp:717-730). */
  predicate ClosesWait(e: Event, windowWidth: nat)
  {
    match e
    case Quit => true
    case KeyDown(key) => key == KEY_RETURN || key == KEY_ESCAPE
    case MouseButtonDown(button, x, y) =>
      button == BUTTON_LEFT && PointInRect(TruncToInt(x), TruncToInt(y), CloseButton(windowWidth))
    case OtherEvent => false
  }

  /** Whether a poll holds an event that closes the game-over screen. */
  predicate PollCloses(events: seq<Event>, windowWidth: nat)
  {
    exists i :: 0 <= i < |events| && ClosesWait(events[i], windowWidth)
  }

  /** The two flags of the game-over wait: `waitingForInput` and the game's `m_running`. */
  datatype Waiting = Waiting(waiting: bool, running: bool)

  /** One event on the game-over screen: a closing event ends the wait, and Quit also
      stops the game. */
  function WaitStep(w: Waiting, e: Event, windowWidth: nat): (v: Waiting)
    ensures v.waiting <==> w.waiting && !ClosesWait(e, windowWidth)
    ensures v.running <==> w.running && e != Quit
  {
    match e
    case Quit => Waiting(false, false)
    case KeyDown(key) =>
      if key == KEY_RETURN || key == KEY_ESCAPE then w.(waiting := false) else w
    case MouseButtonDown(button, x, y) =>
      if button == BUTTON_LEFT && PointInRect(TruncToInt(x), TruncToInt(y), CloseButton(windowWidth))
      then w.(waiting := false) else w
    case OtherEvent => w
  }

  /** All events of one poll on the game-over screen. The inner poll loop does not test
      `waitingForInput`, so every event of the poll is handled: the wait ends exactly when
      some event closes it, and the game stops exactly when some event is Quit. */
  function WaitPoll(w: Waiting, events: seq<Event>, windowWidth: nat): (v: Waiting)
    ensures v.waiting <==> w.waiting && !PollCloses(events, windowWidth)
    ensures v.running <==> w.running && Quit !in events
  {
    if |events| == 0 then w
    else
      var u := WaitPoll(w, events[..|events| - 1], windowWidth);
      assert events == events[..|events| - 1] + [events[|events| - 1]];
      WaitStep(u, events[|events| - 1], windowWidth)
  }

  /** The wait loop of the plain game-over screen: one poll per frame while the screen waits
      and the game runs. The event stream is finite here, so the loop also stops when it
      runs out of polls. */
  function Wait(w: Waiting, polls: seq<seq<Event>>, windowWidth: nat): Waiting
    decreases polls
  {
    if |polls| == 0 || !w.waiting || !w.running then w
    else Wait(WaitPoll(w, polls[0], windowWidth), polls[1..], windowWidth)
  }

  /** The index of the first poll holding a closing event, |polls| when there is none. */
  function ClosingPoll(polls: seq<seq<Event>>, windowWidth: nat): (k: nat)
    ensures k <= |polls|
    ensures forall j :: 0 <= j < k ==> !PollCloses(polls[j], windowWidth)
    ensures k < |polls| ==> PollCloses(polls[k], windowWidth)
    decreases polls
  {
    if |polls| == 0 || PollCloses(polls[0], windowWidth) then 0
    else 1 + ClosingPoll(polls[1..], windowWidth)
  }

  /** Whether the poll that closes the game-over screen holds a Quit event. */
  predicate QuitOnClose(polls: seq<seq<Event>>, windowWidth: nat)
  {
    ClosingPoll(polls, windowWidth) < |polls| && Quit in polls[ClosingPoll(polls, windowWidth)]
  }

  /** The outcome of the wait: it is still waiting only when no poll closes it, and the game
      stops exactly when the poll that closes the screen holds a Quit. A game that is
      already stopped does not wait at all. */
  lemma {:induction false} WaitOutcome(polls: seq<seq<Event>>, running: bool, windowWidth: nat)
    ensures running ==>
              (Wait(Waiting(true, running), polls, windowWidth) ==
               Waiting(ClosingPoll(polls, windowWidth) == |polls|, !QuitOnClose(polls, windowWidth)))
    ensures !running ==> Wait(Waiting(true, running), polls, windowWidth) == Waiting(true, false)
    decreases polls
  {
    if |polls| > 0 && !PollCloses(polls[0], windowWidth) {
      assert forall i :: 0 <= i < |polls[0]| ==> !ClosesWait(polls[0][i], windowWidth);
      WaitOutcome(polls[1..], running, windowWidth);
    }
  }

  /** The game-over wait of handleGameOverScreen (core/game.cpp:698-735): the poll loop
      inside the frame loop, drawing and the frame delay left out. */
  method WaitForClose(polls: seq<seq<Event>>, running: bool, windowWidth: nat) returns (stillRunning: bool)
    ensures stillRunning == Wait(Waiting(true, running), polls, windowWidth).running
    ensures stillRunning <==> running && !QuitOnClose(polls, windowWidth)
  {
    var w := Waiting(true, running);
    WaitOutcome(polls, running, windowWidth);
    var p := 0;
    while w.waiting && w.running && p < |polls|
      invariant 0 <= p <= |polls|
      invariant Wait(w, polls[p..], windowWidth) == Wait(Waiting(true, running), polls, windowWidth)
      decreases |polls| - p
    {
      var events := polls[p];
      var i := 0;
      var v := w;
      while i < |events|
        invariant 0 <= i <= |events|
        invariant v == WaitPoll(w, events[..i], windowWidth)
      {
        v := WaitStep(v, events[i], windowWidth);
        assert events[..i + 1][..i] == events[..i];
        i := i + 1;
      }
      assert events[..|events|] == events;
      assert polls[p..][1..] == polls[p + 1..];
      w := v;
      p := p + 1;
    }
    stillRunning := w.running;
  }

  class Game {
    var state: GameState
    var running: bool
    var worldHealth: int
    var playerHealth: int
    var playerScore: int
    var cameraX: real
    const worldWidth: real
    var worldHeight: real
    var windowWidth: nat
    var windowHeight: nat
    var player: Player?
    var opponents: seq<Opponent>
    var particles: seq<Particle>
    var highScores: seq<HighScore>
    /** The lines of the high-score file. */
    var scoreFile: seq<string>

    predicate Valid()
      reads this, player, opponents
    {
      worldWidth == WORLD_WIDTH &&
      (player != null ==> player.Valid()) &&
      NoDup(opponents) &&
      (forall o :: o in opponents ==> o.Valid()) &&
      WellFormed(highScores)
    }

    /** The game as the constructor leaves it once SDL is up: on the menu, running, with
        the high-score table loaded from `file` (core/game.cpp:15-55). */
    constructor (file: seq<string>)
      ensures Valid()
      ensures state == Menu && running
      ensures worldHealth == INITIAL_WORLD_HEALTH && playerHealth == INITIAL_HEALTH && playerScore == 0
      ensures cameraX == 0.0 && worldHeight == WORLD_HEIGHT
      ensures player == null && opponents == [] && particles == []
      ensures scoreFile == file
      ensures Descending(highScores) && multiset(highScores) == multiset(Kept(ParsedLines(file), MAX_HIGH_SCORES))
    {
      state := Menu;
      running := true;
      worldHealth := INITIAL_WORLD_HEALTH;
      playerHealth := INITIAL_HEALTH;
      playerScore := 0;
      cameraX := 0.0;
      worldWidth := WORLD_WIDTH;
      worldHeight := WORLD_HEIGHT;
      windowWidth := 0;
      windowHeight := 0;
      player := null;
      opponents := [];
      particles := [];
      highScores := [];
      scoreFile := file;
      new;
      LoadHighScores();
    }

    /** The window size read at the top of each frame; the world is as tall as the window
        (core/game.cpp:161-162). */
    method SetWindowSize(w: nat, h: nat)
      modifies this
      ensures windowWidth == w && windowHeight == h && worldHeight == h as real
      ensures state == old(state) && running == old(running) && player == old(player)
      ensures opponents == old(opponents) && particles == old(particles) && cameraX == old(cameraX)
      ensures highScores == old(highScores) && scoreFile == old(scoreFile)
      ensures worldHealth == old(worldHealth) && playerScore == old(playerScore) && playerHealth == old(playerHealth)
    {
      windowWidth := w;
      windowHeight := h;
      if worldHeight != h as real {
        worldHeight := h as real;
      }
    }

    /** loadHighScores: keep the entries of the lines that parse, at most 10 of them, then
        sort them highest first (core/game.cpp:599-624). */
    method LoadHighScores()
      modifies this
      ensures Descending(highScores) && |highScores| <= MAX_HIGH_SCORES
      ensures multiset(highScores) == multiset(Kept(ParsedLines(scoreFile), MAX_HIGH_SCORES))
      ensures Storable(highScores)
      ensures state == old(state) && running == old(running) && player == old(player)
      ensures opponents == old(opponents) && particles == old(particles) && cameraX == old(cameraX)
      ensures worldHealth == old(worldHealth) && playerScore == old(playerScore) && playerHealth == old(playerHealth)
      ensures scoreFile == old(scoreFile) && worldHeight == old(worldHeight)
      ensures windowWidth == old(windowWidth) && windowHeight == old(windowHeight)
    {
      var list := ReadEntries(scoreFile);
      var sorted := SortByScore(list);
      PermutationStorable(list, sorted);
      assert |sorted| == |multiset(sorted)| == |list|;
      highScores := sorted;
    }

    /** saveHighScores: one line per entry, in table order (core/game.cpp:627-638). When
        every entry is storable, loading the file gives the table back. */
    method SaveHighScores()
      requires |highScores| <= MAX_HIGH_SCORES
      modifies this
      ensures scoreFile == SavedLines(highScores)
      ensures Storable(highScores) ==> Kept(ParsedLines(scoreFile), MAX_HIGH_SCORES) == highScores
      ensures highScores == old(highScores) && state == old(state) && running == old(running)
      ensures player == old(player) && opponents == old(opponents) && particles == old(particles)
      ensures cameraX == old(cameraX) && worldHealth == old(worldHealth) && playerScore == old(playerScore)
      ensures playerHealth == old(playerHealth) && worldHeight == old(worldHeight)
      ensures windowWidth == old(windowWidth) && windowHeight == old(windowHeight)
    {
      scoreFile := SavedLines(highScores);
      if Storable(highScores) {
        SaveLoadRoundTrip(highScores, MAX_HIGH_SCORES);
      }
    }

    /** addHighScore: insert at the rank getHighScoreIndex gives, drop the 11th entry, and
        save; a score that does not rank leaves table and file alone
        (core/game.cpp:659-672). */
    method AddHighScore(name: string, score: int)
      requires Valid()
      modifies this
      ensures Valid()
      ensures highScores == Inserted(old(highScores), name, score)
      ensures HighScoreIndex(old(highScores), score) == -1 ==> scoreFile == old(scoreFile)
      ensures HighScoreIndex(old(highScores), score) != -1 ==> scoreFile == SavedLines(highScores)
      ensures HighScoreIndex(old(highScores), score) != -1 && Storable(old(highScores)) &&
              IsToken(StoredName(name)) && INT_MIN <= score <= INT_MAX ==>
                Kept(ParsedLines(scoreFile), MAX_HIGH_SCORES) == highScores
      ensures state == old(state) && running == old(running) && player == old(player)
      ensures opponents == old(opponents) && particles == old(particles) && cameraX == old(cameraX)
      ensures worldHealth == old(worldHealth) && playerScore == old(playerScore) && playerHealth == old(playerHealth)
      ensures worldHeight == old(worldHeight) && windowWidth == old(windowWidth) && windowHeight == old(windowHeight)
    {
      var index := HighScoreIndex(highScores, score);
      if index != -1 {
        var list := InsertEntry(highScores, name, score);
        InsertedWellFormed(highScores, name, score);
        if Storable(highScores) && IsToken(StoredName(name)) && INT_MIN <= score <= INT_MAX {
          InsertedStorable(highScores, name, score);
        }
        highScores := list;
        SaveHighScores();
      }
    }

    /** A game as playGame leaves it: no opponents or particles, the camera at the left
        edge, full world health and a new player at the start position. */
    predicate FreshGame()
      reads this, player
    {
      opponents == [] && particles == [] && cameraX == 0.0 &&
      worldHealth == INITIAL_WORLD_HEALTH &&
      player != null && player.rect == PLAYER_START && player.health == INITIAL_HEALTH &&
      player.projectiles == [] && player.facing == Right && !player.speedBoostActive
    }

    /** playGame (core/game.cpp:142-150). The score is not reset here but on the menu
        screen (core/game.cpp:169). */
    method PlayGame()
      requires Valid()
      modifies this
      ensures Valid() && FreshGame() && fresh(player) && state == Playing
      ensures running == old(running) && playerScore == old(playerScore) && playerHealth == old(playerHealth)
      ensures highScores == old(highScores) && scoreFile == old(scoreFile) && worldHeight == old(worldHeight)
      ensures windowWidth == old(windowWidth) && windowHeight == old(windowHeight)
    {
      opponents := [];
      particles := [];
      cameraX := 0.0;
      player := new Player(PLAYER_START.x, PLAYER_START.y, PLAYER_START.w, PLAYER_START.h);
      state := Playing;
      worldHealth := INITIAL_WORLD_HEALTH;
    }

    /** What one menu event does (core/game.cpp:117-137). */
    method MenuAct(a: MenuAction)
      requires Valid()
      modifies this
      ensures Valid()
      ensures running == (old(running) && a != ExitGame)
      ensures state == match a
        case StartGame => Playing
        case ShowHowToPlay => HowToPlay
        case _ => old(state)
      ensures a == StartGame ==> FreshGame() && fresh(player)
      ensures a != StartGame ==>
        player == old(player) && opponents == old(opponents) && particles == old(particles) &&
        cameraX == old(cameraX) && worldHealth == old(worldHealth)
      ensures playerScore == old(playerScore) && playerHealth == old(playerHealth)
      ensures highScores == old(highScores) && scoreFile == old(scoreFile) && worldHeight == old(worldHeight)
      ensures windowWidth == old(windowWidth) && windowHeight == old(windowHeight)
    {
      match a {
        case ExitGame => running := false;
        case StartGame => PlayGame();
        case ShowHowToPlay => state := HowToPlay;
        case NoAction =>
      }
    }

    /** handleMenuEvents (core/game.cpp:113-140): every polled event is handled in turn.
        Quit, Escape and the exit button stop the game; Return and the play button start a
        new game; the how-to-play button switches screens. */
    method HandleMenuEvents(events: seq<Event>)
      requires Valid()
      modifies this
      ensures Valid()
      ensures var actions := MenuActions(events, windowWidth, windowHeight);
        running == (old(running) && ExitGame !in actions) &&
        state == MenuScreenAfter(old(state), actions) &&
        (StartGame in actions ==> FreshGame() && fresh(player)) &&
        (StartGame !in actions ==>
          player == old(player) && opponents == old(opponents) && particles == old(particles) &&
          cameraX == old(cameraX) && worldHealth == old(worldHealth))
      ensures playerScore == old(playerScore) && playerHealth == old(playerHealth)
      ensures highScores == old(highScores) && scoreFile == old(scoreFile) && worldHeight == old(worldHeight)
      ensures windowWidth == old(windowWidth) && windowHeight == old(windowHeight)
    {
      var actions := MenuActions(events, windowWidth, windowHeight);
      var i := 0;
      while i < |events|
        invariant 0 <= i <= |events|
        invariant Valid()
        invariant running == (old(running) && ExitGame !in actions[..i])
        invariant state == MenuScreenAfter(old(state), actions[..i])
        invariant StartGame in actions[..i] ==> FreshGame() && fresh(player)
        invariant StartGame !in actions[..i] ==>
          player == old(player) && opponents == old(opponents) && particles == old(particles) &&
          cameraX == old(cameraX) && worldHealth == old(worldHealth)
        invariant playerScore == old(playerScore) && playerHealth == old(playerHealth)
        invariant highScores == old(highScores) && scoreFile == old(scoreFile) && worldHeight == old(worldHeight)
        invariant windowWidth == old(windowWidth) && windowHeight == old(windowHeight)
      {
        assert actions[..i + 1] == actions[..i] + [actions[i]];
        MenuAct(MenuActionOf(events[i], windowWidth, windowHeight));
        i := i + 1;
      }
      assert actions[..|events|] == actions;
    }

    /** handleHowToPlayEvents (core/game.cpp:824-838): Quit stops the game; Escape,
        Return or any mouse click goes back to the menu. */
    method HandleHowToPlayEvents(events: seq<Event>)
      modifies this
      ensures running == (old(running) && Quit !in events)
      ensures state == if exists k :: 0 <= k < |events| && LeavesHowToPlay(events[k]) then Menu else old(state)
      ensures player == old(player) && opponents == old(opponents) && particles == old(particles)
      ensures cameraX == old(cameraX) && worldHealth == old(worldHealth) && playerScore == old(playerScore)
      ensures playerHealth == old(playerHealth) && highScores == old(highScores) && scoreFile == old(scoreFile)
      ensures worldHeight == old(worldHeight) && windowWidth == old(windowWidth) && windowHeight == old(windowHeight)
    {
      var i := 0;
      while i < |events|
        invariant 0 <= i <= |events|
        invariant running == (old(running) && Quit !in events[..i])
        invariant state == if exists k :: 0 <= k < i && LeavesHowToPlay(events[k]) then Menu else old(state)
        invariant player == old(player) && opponents == old(opponents) && particles == old(particles)
        invariant cameraX == old(cameraX) && worldHealth == old(worldHealth) && playerScore == old(playerScore)
        invariant playerHealth == old(playerHealth) && highScores == old(highScores) && scoreFile == old(scoreFile)
        invariant worldHeight == old(worldHeight) && windowWidth == old(windowWidth) && windowHeight == old(windowHeight)
      {
        assert events[..i + 1] == events[..i] + [events[i]];
        match events[i] {
          case Quit => running := false;
          case KeyDown(key) =>
            if key == KEY_ESCAPE || key == KEY_RETURN {
              state := Menu;
            }
          case MouseButtonDown(_, _, _) => state := Menu;
          case OtherEvent =>
        }
        i := i + 1;
      }
      assert events[..|events|] == events;
    }

    /** handleEvents (core/game.cpp:191-229). While playing, Quit stops the game and the
        first Escape returns to the menu at once, skipping the rest of the poll and the
        player's input; without an Escape the player handles the keyboard state. On any
        other screen only Quit, and Escape on the game-over screen, are looked at. */
    method HandleEvents(events: seq<Event>, keys: Keys)
      requires Valid()
      modifies this, player
      ensures Valid()
      ensures var stop := if old(state) == Playing || old(state) == GameOver then FirstEscape(events) else |events|;
        running == (old(running) && Quit !in events[..stop]) &&
        state == (if stop < |events| then Menu else old(state))
      ensures player == old(player) && opponents == old(opponents) && particles == old(particles)
      ensures old(state) == Playing && FirstEscape(events) == |events| && player != null ==>
        player.speedBoostActive == (keys.c || keys.rshift || keys.lshift) &&
        player.rect == Moved(old(player.rect), keys, player.speed * INPUT_STEP) &&
        player.facing == Turned(old(player.facing), keys) &&
        player.spacePressed == keys.space && player.health == old(player.health) &&
        (keys.space && !old(player.spacePressed) <==> |player.projectiles| == |old(player.projectiles)| + 1)
      ensures !(old(state) == Playing && FirstEscape(events) == |events|) && player != null ==>
        player.rect == old(player.rect) && player.health == old(player.health) &&
        player.projectiles == old(player.projectiles)
      ensures cameraX == old(cameraX) && worldHealth == old(worldHealth) && playerScore == old(playerScore)
      ensures playerHealth == old(playerHealth) && highScores == old(highScores) && scoreFile == old(scoreFile)
      ensures worldHeight == old(worldHeight) && windowWidth == old(windowWidth) && windowHeight == old(windowHeight)
    {
      var playing := state == Playing;
      var stop := if state == Playing || state == GameOver then FirstEscape(events) else |events|;
      running := PollQuit(events, stop, running);
      if stop < |events| {
        state := Menu;
      } else if playing && player != null {
        player.HandleInput(keys);
      }
    }

    /** handleGameOverScreen (core/game.cpp:675-739). A score that ranks opens the
        name-entry screen and the typed name, trimmed, goes into the table and the file;
        either way the game returns to the menu. Otherwise the plain game-over screen
        waits for a key or a click, reading the same polls, and a Quit there stops the
        game. */
    method HandleGameOver(polls: seq<seq<Event>>)
      requires Valid()
      modifies this
      ensures Valid() && state == Menu
      ensures var entry := Session(Entry("", true, old(running)), polls);
        HighScoreIndex(old(highScores), old(playerScore)) != -1 ==>
          running == entry.running &&
          highScores == Inserted(old(highScores), FinalName(entry.name), old(playerScore)) &&
          scoreFile == SavedLines(highScores)
      ensures HighScoreIndex(old(highScores), old(playerScore)) != -1 &&
              Storable(old(highScores)) && INT_MIN <= old(playerScore) <= INT_MAX ==>
                Kept(ParsedLines(scoreFile), MAX_HIGH_SCORES) == highScores
      ensures HighScoreIndex(old(highScores), old(playerScore)) == -1 ==>
        (running <==> old(running) && !QuitOnClose(polls, old(windowWidth))) &&
        highScores == old(highScores) && scoreFile == old(scoreFile)
      ensures player == old(player) && opponents == old(opponents) && particles == old(particles)
      ensures cameraX == old(cameraX) && worldHealth == old(worldHealth) && playerScore == old(playerScore)
      ensures playerHealth == old(playerHealth) && worldHeight == old(worldHeight)
      ensures windowWidth == old(windowWidth) && windowHeight == old(windowHeight)
    {
      var scoreIndex := HighScoreIndex(highScores, playerScore);
      if scoreIndex != -1 {
        var name, stillRunning := EnterName(polls, running);
        running := stillRunning;
        var finalName := FinalName(name);
        assert IsToken(StoredName(finalName)) by {
          TypedNameIsKept(name);
        }
        AddHighScore(finalName, playerScore);
      } else {
        running := WaitForClose(polls, running, windowWidth);
      }
      state := Menu;
    }

    /** updateCamera (core/game.cpp:545-554). */
    method UpdateCamera()
      requires Valid()
      modifies this
      ensures Valid()
      ensures player != null ==> cameraX == CameraTarget(player.rect.x, windowWidth)
      ensures player == null ==> cameraX == old(cameraX)
      ensures state == old(state) && running == old(running) && player == old(player)
      ensures opponents == old(opponents) && particles == old(particles) && worldHealth == old(worldHealth)
      ensures playerScore == old(playerScore) && playerHealth == old(playerHealth)
      ensures highScores == old(highScores) && scoreFile == old(scoreFile) && worldHeight == old(worldHeight)
      ensures windowWidth == old(windowWidth) && windowHeight == old(windowHeight)
    {
      if player != null {
        var pb := player.rect;
        var target := pb.x - windowWidth as real / 2.0;
        if target < 0.0 {
          target := 0.0;
        }
        if target > worldWidth - windowWidth as real {
          target := worldWidth - windowWidth as real;
        }
        cameraX := target;
      }
    }

    /** The clamp at the start of update (core/game.cpp:287-295): the player is pushed
        back inside the world; only its position changes. */
    method ClampPlayer()
      requires Valid()
      modifies player
      ensures Valid()
      ensures player != null ==>
        player.rect == Clamped(old(player.rect), worldWidth, worldHeight) &&
        player.health == old(player.health) && player.facing == old(player.facing) &&
        player.projectiles == old(player.projectiles) && player.speed == old(player.speed) &&
        player.speedBoostActive == old(player.speedBoostActive) && player.spacePressed == old(player.spacePressed)
    {
      if player != null {
        var pb := player.rect;
        var cx := pb.x;
        var cy := pb.y;
        if cx < 0.0 { cx := 0.0; }
        if cy < 0.0 { cy := 0.0; }
        if cx + pb.w > worldWidth { cx := worldWidth - pb.w; }
        if cy + pb.h > worldHeight { cy := worldHeight - pb.h; }
        if cx != pb.x || cy != pb.y {
          player.SetPosition(cx, cy);
        }
      }
    }

    /** spawnOpponent (core/game.cpp:451-460): one rand() picks the kind, a second the x
        position in [0, 6350); the opponent starts 50 above the world. A sniper takes a
        third draw for its oscillation offset. */
    method SpawnOpponent(kindDraw: nat, xDraw: nat, offsetDraw: nat)
      requires Valid() && offsetDraw <= RAND_MAX
      modifies this
      ensures Valid()
      ensures |opponents| == |old(opponents)| + 1 && opponents[..|old(opponents)|] == old(opponents)
      ensures var o := opponents[|opponents| - 1];
        fresh(o) && o.kind == SpawnKind(kindDraw) &&
        o.rect == Rect(RandMod(xDraw, 6350) as real, -50.0, SpawnSize(o.kind), SpawnSize(o.kind)) &&
        0.0 <= o.rect.x < WORLD_WIDTH - 50.0 && o.IsAlive()
      ensures state == old(state) && running == old(running) && player == old(player)
      ensures particles == old(particles) && cameraX == old(cameraX) && worldHealth == old(worldHealth)
      ensures playerScore == old(playerScore) && playerHealth == old(playerHealth)
      ensures highScores == old(highScores) && scoreFile == old(scoreFile) && worldHeight == old(worldHeight)
      ensures windowWidth == old(windowWidth) && windowHeight == old(windowHeight)
    {
      var kind := RandMod(kindDraw, 3);
      var x := RandMod(xDraw, (worldWidth - 50.0).Floor) as real;
      var y := -50.0;
      var o: Opponent;
      if kind == 0 {
        o := new Opponent.Basic(x, y, 40.0, 40.0);
      } else if kind == 1 {
        o := new Opponent.Aggressive(x, y, 45.0, 45.0);
      } else {
        o := new Opponent.Sniper(x, y, 35.0, 35.0, offsetDraw);
      }
      opponents := opponents + [o];
    }

    /** The opponent loop of update (core/game.cpp:298-303) on the game's opponents. The
        source dereferences the player here, so a player must exist. */
    method UpdateOpponents(dt: real, sin: real -> real, sqrt: real -> real, rng: nat -> nat, cursor: nat)
      returns (next: nat)
      requires Valid() && player != null && IsSine(sin)
      modifies opponents, OpponentShots(opponents)
      ensures Valid()
      ensures next == cursor + old(AliveAggressive(opponents))
      ensures forall o :: o in opponents ==> o.health == old(o.health)
      ensures forall o :: o in opponents && !old(o.IsAlive()) ==>
                o.rect == old(o.rect) && o.projectiles == old(o.projectiles) && o.fireTimer == old(o.fireTimer)
      ensures forall o :: o in opponents && o.kind == BasicOpponent ==> o.projectiles == []
    {
      var playerPos := Point(player.rect.x, player.rect.y);
      next := UpdateEach(opponents, dt, playerPos, cameraX, windowWidth, sin, sqrt, rng, cursor);
    }

    /** The opponent prune of update (core/game.cpp:305-319): an opponent below the world
        is erased, and a basic one costs one world health, ending the game once world
        health is gone; a dead opponent is erased for free. */
    method PruneOpponents()
      requires Valid()
      modifies this
      ensures Valid()
      ensures opponents == old(Survivors(opponents, worldHeight))
      ensures worldHealth == old(worldHealth - FallenBasic(opponents, worldHeight))
      ensures state == if old(FallenBasic(opponents, worldHeight)) > 0 && worldHealth <= 0 then GameOver else old(state)
      ensures running == old(running) && player == old(player) && particles == old(particles)
      ensures cameraX == old(cameraX) && playerScore == old(playerScore) && playerHealth == old(playerHealth)
      ensures highScores == old(highScores) && scoreFile == old(scoreFile) && worldHeight == old(worldHeight)
      ensures windowWidth == old(windowWidth) && windowHeight == old(windowHeight)
    {
      var kept, health, newState := PruneOpponentList(opponents, worldHeight, worldHealth, state);
      assert NoDup(kept) && forall o :: o in kept ==> o.Valid();
      opponents := kept;
      worldHealth, state := health, newState;
    }

    /** The player-projectile step of update (core/game.cpp:321-336). */
    method UpdatePlayerProjectiles(dt: real)
      requires Valid()
      modifies player, if player == null then {} else set p | p in player.projectiles
      ensures Valid()
      ensures player != null ==>
        player.projectiles == InWorld(old(player.projectiles), worldWidth, worldHeight) &&
        (forall p :: p in old(player.projectiles) ==>
           p.age == old(p.age) + dt && p.rect == Advance(old(p.rect), p.velocity, dt)) &&
        player.rect == old(player.rect) && player.health == old(player.health) &&
        player.facing == old(player.facing) && player.spacePressed == old(player.spacePressed) &&
        player.speedBoostActive == old(player.speedBoostActive)
    {
      if player != null {
        var kept := AdvanceAndPrune(player.projectiles, dt, worldWidth, worldHeight);
        InWorldMembers(player.projectiles, worldWidth, worldHeight);
        player.projectiles := kept;
      }
    }

    /** The opponent-projectile step of update (core/game.cpp:338-354): each opponent's
        projectiles move, then those out of the world are dropped. */
    method UpdateOpponentProjectiles(dt: real)
      requires Valid()
      modifies opponents, OpponentShots(opponents)
      ensures Valid()
      ensures forall o :: o in opponents ==>
                |o.projectiles| <= |old(o.projectiles)| && forall p :: p in o.projectiles ==> p in old(o.projectiles)
      ensures forall o :: o in opponents ==> o.rect == old(o.rect) && o.health == old(o.health)
    {
      OpponentShotsHas(opponents);
      var i := 0;
      while i < |opponents|
        invariant 0 <= i <= |opponents|
        invariant forall k :: 0 <= k < |opponents| ==>
                    opponents[k].Valid() && opponents[k].rect == old(opponents[k].rect) &&
                    opponents[k].health == old(opponents[k].health) &&
                    |opponents[k].projectiles| <= |old(opponents[k].projectiles)| &&
                    (forall p :: p in opponents[k].projectiles ==> p in old(opponents[k].projectiles))
        invariant forall k :: i <= k < |opponents| ==> opponents[k].projectiles == old(opponents[k].projectiles)
      {
        AdvanceOpponentProjectiles(opponents[i], dt, worldWidth, worldHeight);
        i := i + 1;
      }
    }

    /** The particle step of update (core/game.cpp:356-363): `isAlive` says whether a
        particle is still alive after its own update. */
    method PruneParticles(isAlive: Particle -> bool)
      modifies this
      ensures particles == LiveParticles(old(particles), isAlive)
      ensures state == old(state) && running == old(running) && player == old(player)
      ensures opponents == old(opponents) && cameraX == old(cameraX) && worldHealth == old(worldHealth)
      ensures playerScore == old(playerScore) && playerHealth == old(playerHealth)
      ensures highScores == old(highScores) && scoreFile == old(scoreFile) && worldHeight == old(worldHeight)
      ensures windowWidth == old(windowWidth) && windowHeight == old(windowHeight)
    {
      particles := PruneDeadParticles(particles, isAlive);
    }

    /** Phase 1 of checkCollisions (core/game.cpp:465-487): the player's projectiles against
        the opponents. Only scores, opponent health, the player's projectiles and the
        particles can change. */
    method ShootOpponents(rng: nat -> nat, cursor: nat, sin: real -> real, cos: real -> real) returns (next: nat)
      requires Valid() && player != null && IsRandStream(rng)
      modifies this, player, set o | o in opponents
      ensures player == old(player) && opponents == old(opponents)
      ensures state == old(state) && playerHealth == old(playerHealth) && running == old(running)
      ensures cameraX == old(cameraX) && worldHealth == old(worldHealth) && worldHeight == old(worldHeight)
      ensures highScores == old(highScores) && scoreFile == old(scoreFile)
      ensures windowWidth == old(windowWidth) && windowHeight == old(windowHeight)
      ensures Valid()
      ensures player.health == old(player.health) && player.rect == old(player.rect)
      ensures forall p :: p in player.projectiles ==> p in old(player.projectiles)
      ensures |old(particles)| <= |particles| && particles[..|old(particles)|] == old(particles)
    {
      var gained, result;
      gained, result, next := PlayerShots(player, opponents, particles, rng, cursor, sin, cos);
      playerScore, particles := playerScore + gained, result;
    }

    /** Phase 2 of checkCollisions (core/game.cpp:490-541), entered with a living player: the
        player against each opponent and its projectiles. The displayed health follows every
        hit and the game ends exactly when the player dies here. */
    method TouchOpponents(rng: nat -> nat, cursor: nat, sin: real -> real, cos: real -> real) returns (next: nat)
      requires Valid() && player != null && player.IsAlive() && IsRandStream(rng)
      modifies this, player, set o | o in opponents
      ensures player == old(player)
      ensures running == old(running) && cameraX == old(cameraX) && worldHealth == old(worldHealth)
      ensures highScores == old(highScores) && scoreFile == old(scoreFile) && worldHeight == old(worldHeight)
      ensures windowWidth == old(windowWidth) && windowHeight == old(windowHeight)
      ensures Valid()
      ensures player.health <= old(player.health) && player.rect == old(player.rect)
      ensures player.projectiles == old(player.projectiles)
      ensures state == (if player.health <= 0 then GameOver else old(state))
      ensures playerHealth == (if player.health < old(player.health) then player.health else old(playerHealth))
      ensures forall o :: o in opponents ==> o in old(opponents)
      ensures |old(particles)| <= |particles| && particles[..|old(particles)|] == old(particles)
    {
      var h0 := player.health;
      var remaining, gained, result;
      remaining, gained, result, next := PlayerContacts(player, opponents, particles, rng, cursor, sin, cos);
      opponents, playerScore, particles := remaining, playerScore + gained, result;
      if player.health < h0 {
        playerHealth := player.health;
      }
      if !player.IsAlive() {
        state := GameOver;
      }
    }

    /** checkCollisions (core/game.cpp:462-543): nothing without a player; otherwise phase 1,
        then phase 2 while the player is alive. */
    method CheckCollisions(rng: nat -> nat, cursor: nat, sin: real -> real, cos: real -> real) returns (next: nat)
      requires Valid() && IsRandStream(rng)
      modifies this, player, set o | o in opponents
      ensures player == old(player)
      ensures running == old(running) && cameraX == old(cameraX) && worldHealth == old(worldHealth)
      ensures highScores == old(highScores) && scoreFile == old(scoreFile) && worldHeight == old(worldHeight)
      ensures windowWidth == old(windowWidth) && windowHeight == old(windowHeight)
      ensures Valid()
      ensures player != null ==> player.health <= old(player.health) && player.rect == old(player.rect)
      ensures state == (if player != null && old(player.health) > 0 && player.health <= 0 then GameOver else old(state))
      ensures playerHealth == (if player != null && player.health < old(player.health) then player.health else old(playerHealth))
      ensures player != null ==> forall p :: p in player.projectiles ==> p in old(player.projectiles)
      ensures forall o :: o in opponents ==> o in old(opponents)
      ensures |old(particles)| <= |particles| && particles[..|old(particles)|] == old(particles)
    {
      next := cursor;
      if player == null {
        return;
      }
      next := ShootOpponents(rng, next, sin, cos);
      if player.IsAlive() {
        next := TouchOpponents(rng, next, sin, cos);
      }
    }
  }
}
