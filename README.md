# A verified model of the SDL3 side-scroller's game rules

The game is a side-scrolling shooter. A ship flies over a world 6400 pixels wide whose
height follows the window. Three kinds of opponent come down from the top: basic,
aggressive and sniper. A basic opponent drifts down and sways, and costs the world one
health point if it reaches the bottom. An aggressive opponent chases the ship and fires
aimed shots. A sniper sways slowly and fires fast aimed shots. The ship shoots
horizontally, boosts its speed and loses health on contact. When the ship or the world
runs out of health the game is over. A score that ranks then asks for a name and is
inserted into a ten-entry high-score table kept in a text file of `NAME SCORE` lines.

The Dafny project models the parts of the game that decide things:

- the high-score table: rank query, insertion, sorting, and the file's line format;
- name entry: the key rule, the poll loops, trimming;
- the per-frame rules of `Game`: opponent update and prune, projectile and particle
  prunes, the two collision phases, the camera and player clamp;
- the screen transitions: menu, how-to-play, playing, game over;
- the entity state machines: `Player`, `Projectile`, `HealthItem`, and the three
  opponent kinds, gathered in one `Opponent` class with a `kind` tag.

Objects the game updates in place are classes whose methods state their whole new state.
Pure rules are functions with lemmas. Each loop that edits a collection is a method proved
against a function of the old contents, and the function's properties are proved as lemmas.

Environment:

- Coordinates and times are `real`.
- `sin`, `cos` and `sqrt` are function parameters. `sin` is assumed to stay within -1..1
  where a contract needs it, and `sqrt` to be the non-negative square root where the
  speed of an aimed shot is stated; nothing is assumed of `cos`.
- `rand()` is a stream of raw draws (`rng: nat -> nat`, each at most `RAND_MAX`) read from
  a cursor that every method returns advanced.
- SDL events arrive as a sequence of `Event` values per poll; the keyboard state is a
  `Keys` record.
- The high-score file is a sequence of lines held by the game.

Modules, one per file:

- `Basics`: rectangles, strict overlap, the damage floor, `rand() % n`.
- `Events`: SDL events and key codes.
- `Particles`, `Projectiles`, `HealthItems`, `Players`, `Opponents`: the entities.
- `HighScores` and `ScoreFile`: the table and its file format.
- `NameEntry`: the name-entry screen.
- `ShotRules` and `ContactRules`: the two collision phases as pure folds.
- `Collisions`: the collision loops over the opponent objects, proved against those folds.
- `Games`: the `Game` class and the loops of its frame update.

## Model

| member | source | states |
|---|---|---|
| Basics.OverlapsSymmetric | entities/player.cpp:95-103 | the strict rectangle overlap holds for (a, b) exactly when it holds for (b, a) |
| Basics.TouchingDoesNotOverlap | entities/player.cpp:99-102 | two rectangles that only share an edge do not overlap, since all four comparisons are strict |
| Basics.TruncToInt | core/game.cpp:125-126 | the float-to-int conversion of a click position truncates toward zero: the result is within one unit of the value, never above a non-negative value and never below a negative one |
| Basics.DamagedHealth | entities/player.h:32 | health after damage is max(0, health - damage): never negative, zero exactly when the damage reaches the health, and never above the old health for non-negative damage |
| Basics.RandMod | core/game.cpp:452-453 | `rand() % n` lies in [0, n) and is the draw itself when the draw is below n |
| Projectiles.AimVelocity | entities/projectile.cpp:22-31 | zero velocity when the spawn-to-target distance is at most 0.001; otherwise velocity times distance equals offset times speed on each axis |
| Projectiles.AimParallel | entities/projectile.cpp:26-28 | an aimed velocity is parallel to the offset from spawn point to target |
| Projectiles.AimMagnitude | entities/projectile.cpp:22-28 | when the distance is the length of the offset and above 0.001, the aimed velocity has length exactly `speed` |
| Projectiles.OffsetSpeed | entities/projectile.cpp:22-31 | with `sqrt` a square root, the velocity for an offset longer than 0.001 has length `speed` and is parallel to it; for a shorter offset it is zero |
| Projectiles.AimAtSpeed | entities/projectile.cpp:22-31 | with `sqrt` a square root, a shot fired at a target more than 0.001 away moves at exactly `speed` along the line to it; one fired at (nearly) its own spawn point stays still |
| Projectiles.AimPointsAtTarget | entities/projectile.cpp:26-28 | with positive speed, each velocity component has the sign of the offset on its axis, so the shot heads for the target |
| Projectiles.Advance | entities/projectile.cpp:36-37 | a move keeps the hitbox size and shifts its corner by exactly velocity times dt |
| Projectiles.Projectile.Horizontal | entities/projectile.cpp:5-13 | the player's shot: a 2x2 hitbox at the spawn point, velocity (direction * speed, 0), age 0, lifetime 0.5, horizontal |
| Projectiles.Projectile.Aimed | entities/projectile.cpp:16-32 | an opponent's shot: a 4x4 hitbox at the spawn point, age 0, lifetime 0.5, not horizontal, velocity the aimed velocity toward the target; with `sqrt` a square root, that velocity has length `speed` and lies along the offset to the target (zero when the target is within 0.001) |
| Projectiles.Projectile.Update | entities/projectile.cpp:34-38 | age grows by dt and the hitbox moves by velocity times dt; velocity, spawn point and size stay |
| Projectiles.UpdateAll | core/game.cpp:283-285 | every projectile of a list without repeats is updated exactly once |
| HealthItems.HealthItem.constructor | entities/health_item.cpp:6-12 | position, type and texture as given, falling at 50, not hit, not blinking, timer and count 0; it stops exactly when the draw over RAND_MAX + 1 is below 0.25, and then at the height 200 + draw % 101, in [200, 300] |
| HealthItems.HealthItem.Update | entities/health_item.cpp:14-31 | blinking: no movement, the timer grows by dt and at 0.2 resets to 0 while the count rises by one; falling: y grows by 50 * dt and the item stops exactly when it was chosen to stop and was at or below its stop height; stopped: nothing moves; keeps the invariant that an item not chosen to stop never stops |
| HealthItems.HealthItem.BlinkAlpha | entities/health_item.cpp:49-53 | the alpha is 0 or 255: 255 when not blinking and in the first half of a blink phase, 0 in the second half |
| HealthItems.HealthItem.StartBlinking | entities/health_item.cpp:55-60 | sets hit-ground and blinking, resets timer and count to 0, keeps the position; the item is then alive and fully opaque |
| Players.ShotDirection | entities/player.cpp:91 | the shot direction is +1 or -1, positive exactly when facing right |
| Players.ExhaustParticle | entities/player.cpp:123-134 | an exhaust particle is orange-yellow (r 255, g in [100, 199], b in [0, 49]), lands in the plume's box around the rear centre, has vertical speed within half the jitter, blows backwards whenever the base speed outweighs the jitter, and has the default size and lifetime |
| Players.Moved | entities/player.cpp:41-55 | each axis moves by the step when exactly one of its two key pairs is held, and stays when both or neither are; the size stays |
| Players.Turned | entities/player.cpp:48-55 | right or D faces right (it is tested last); left or A alone faces left; otherwise the facing stays |
| Players.Player.constructor | entities/player.cpp:8-16 | position as given, no boost, speed 200, facing right, space not held, health 10, no projectiles |
| Players.Player.TakeDamage | entities/player.h:32 | health becomes max(0, health - damage); damage at least the health kills; non-negative damage never raises health; nothing else changes |
| Players.Player.FrontCenter | entities/player.cpp:67-78 | (x + w, y + h/2) facing right and (x, y + h/2) facing left |
| Players.Player.RearCenter | entities/player.cpp:139-143 | the rear centre is at the front centre's height, mirrored about the ship's horizontal middle |
| Players.Player.SetPosition | entities/player.cpp:80-83 | only x and y change; size, speed, facing, health and projectiles stay |
| Players.Player.SetSpeedBoost | entities/player.cpp:105-108 | the boost flag is set and the speed is 200 * 2.1 with boost and 200 without |
| Players.Player.Shoot | entities/player.cpp:89-93 | exactly one fresh horizontal projectile is appended, at the front centre with velocity (+-600, 0) by facing; earlier projectiles and all other fields stay |
| Players.Player.HandleInput | entities/player.cpp:35-61 | the boost flag becomes C or either Shift and the speed follows it; the ship moves by speed * 0.016 and turns; it shoots exactly when space is held now and was not at the previous call; the held flag becomes the current space state; health stays |
| Players.Player.Steer | entities/player.cpp:42-55 | the movement and turning of handleInput, by the given step |
| Players.Player.SpawnDefaultBoosterParticles | entities/player.cpp:138-159 | appends exactly one default-plume exhaust particle behind the ship, using six draws |
| Players.Drawn | entities/player.cpp:121-134 | a run of draws has exactly one particle per draw |
| Players.DrawnAt | entities/player.cpp:121-134 | the k-th particle of a run is the one built from the stream 6 * k values after the run's start, so draws never overlap |
| Players.ExhaustColours | entities/player.cpp:130-133 | every particle of an exhaust run is orange-yellow |
| Players.AppendDrawn | entities/player.cpp:121-134 | the particle loop appends exactly the run of `count` draws after the existing particles and advances the stream by six draws per particle |
| Players.Player.SpawnBoosterParticles | entities/player.cpp:110-136 | nothing without boost; with boost appends exactly the run of 12 boost-plume exhaust particles from the rear centre, advancing the stream by 72 |
| Players.Player.Update | entities/player.cpp:18-33 | appends the default exhaust particle and then, with boost, the boost run drawn after it; nothing removed, 1 or 13 new particles, all orange-yellow, six draws each |
| Opponents.ExplosionOf | entities/opponents/basic_opponent.cpp:27-43 | every kind's explosion has a positive particle count and colour ranges that are non-empty and inside [0, 255] |
| Opponents.SparkSpeed | entities/opponents/basic_opponent.cpp:33 | an explosion particle's speed lies in its kind's speed range |
| Opponents.FractionScaled | entities/opponents/base_opponent.cpp:49-50 | a draw over RAND_MAX times a non-negative width lies in [0, width] |
| Opponents.Spark | entities/opponents/base_opponent.cpp:47-59 | an explosion particle starts at the centre, each colour channel lies in its kind's range, and it carries the kind's two trailing arguments |
| Opponents.OnScreenInclusive | entities/opponents/base_opponent.cpp:33-41 | both screen edges count as on screen, and the y coordinate never matters |
| Opponents.ChaseTargetX | entities/opponents/aggressive_opponent.cpp:30 | the chase target x lies in [player.x - 100, player.x + 99] |
| Opponents.StepToward | entities/opponents/aggressive_opponent.cpp:34-44 | a coordinate within 1 of its target stays; otherwise it moves one step toward the target |
| Opponents.StepTowardCloser | entities/opponents/aggressive_opponent.cpp:38-43 | a step no larger than the gap shrinks the gap by exactly the step |
| Opponents.Opponent.Basic | entities/opponents/basic_opponent.cpp:8-17 | a basic opponent: the base fields (start x, angle 0, health 3, fire timer 0), speed 30, angular speed 1.5, amplitude 80, score 300, no projectiles |
| Opponents.Opponent.Aggressive | entities/opponents/aggressive_opponent.cpp:9-24 | an aggressive opponent: speed 70, fire interval 1.8, health 2, score 100, no projectiles |
| Opponents.Opponent.Sniper | entities/opponents/sniper_opponent.cpp:10-35 | a sniper: speed 20, amplitude 60, fire interval 4, health 1, score 100, phase offset draw / RAND_MAX * 2 pi, and its explosion config |
| Opponents.Opponent.Center | entities/opponents/base_opponent.cpp:44 | the centre lies half the width and half the height from the corner |
| Opponents.Opponent.TakeDamage | entities/opponents/base_opponent.cpp:12-15 | health becomes max(0, health - damage) and damage at least the health kills; position, shots and timer stay |
| Opponents.Opponent.Explode | entities/opponents/base_opponent.cpp:43-61 | appends exactly the kind's particle count (120, 50 or 345), keeps the old particles, starts each new one at the centre with colours in the kind's ranges, five draws each |
| Opponents.Opponent.UpdateBasic | entities/opponents/basic_opponent.cpp:19-25 | a dead one stays put; a live one falls by 30 * dt, turns its angle by 1.5 * dt and sways to startX + sin(angle) * 80, so within 80 of its start; it never fires |
| Opponents.Opponent.TryFire | entities/opponents/aggressive_opponent.cpp:46-61 | when the centre is on screen and the timer plus dt reaches the interval, exactly one fresh aimed shot from the centre is appended and the timer resets to 0; otherwise the timer grows by dt and the shots stay |
| Opponents.Opponent.UpdateSniper | entities/opponents/sniper_opponent.cpp:37-58 | a dead one stays put; a live one falls by 20 * dt, sways within 60 of its start and fires at the player at speed 1800 under the 4-second cooldown rule |
| Opponents.Opponent.Chase | entities/opponents/aggressive_opponent.cpp:33-44 | each axis steps toward its target by speed times dt unless already within 1 of it |
| Opponents.Opponent.UpdateAggressive | entities/opponents/aggressive_opponent.cpp:26-66 | a dead one does nothing; a live one chases a target near the player by 70 * dt per axis, fires at it at speed 300 under the 1.8-second cooldown rule, then moves every shot once |
| Opponents.Opponent.Update | core/game.cpp:299-303 | the update of the opponent's kind: health stays, a dead one stays put, a basic one holds no shots, and one draw is used by a live aggressive one |
| HighScores.FirstBeaten | core/game.cpp:646-650 | the first position whose score the new score beats, or the length if none |
| HighScores.HighScoreIndex | core/game.cpp:645-657 | the first index whose score is beaten; else the length when the table has fewer than 10 entries; else -1, and -1 exactly when the table is full and nothing is beaten |
| HighScores.IndexAgreesWithIsHighScore | core/game.cpp:640-657 | on a descending table the index is not -1 exactly when isHighScore holds (room left, or beating the last entry) |
| HighScores.StoredName | core/game.cpp:663 | the stored name is never empty and is the given name when that is not empty |
| HighScores.Inserted | core/game.cpp:659-669 | at index -1 the table stays; otherwise the new entry sits at the index, the entries before it stay, those after shift down by one, and the length grows unless the table was full |
| HighScores.InsertedWellFormed | core/game.cpp:659-669 | a descending table of at most 10 entries stays descending with at most 10 entries after an insertion |
| HighScores.InsertedKeeps | core/game.cpp:665-668 | an insertion adds the new entry to the table's multiset, and on a full table removes exactly the old last entry |
| HighScores.InsertByScore | core/game.cpp:619-620 | inserting into a sorted list adds the entry to its multiset and one to its length |
| HighScores.InsertByScoreDescending | core/game.cpp:619-620 | inserting into a descending list keeps it descending |
| HighScores.SortByScore | core/game.cpp:618-620 | the sorted table is descending by score and a permutation of the input |
| HighScores.SortedScoresDetermined | core/game.cpp:618-620 | any two descending permutations of one table have the same sequence of scores, so the model's sort agrees with any sort on the scores |
| ScoreFile.SkipSpace | core/game.cpp:608 | drops exactly the leading whitespace |
| ScoreFile.TokenLength | core/game.cpp:608 | the length of the leading run of non-whitespace characters |
| ScoreFile.DigitRunLength | core/game.cpp:608 | the length of the leading run of decimal digits |
| ScoreFile.ReadToken | core/game.cpp:608 | reading the name fails exactly when only whitespace is left, and otherwise yields a non-empty token without whitespace |
| ScoreFile.ReadInt | core/game.cpp:608 | reading the score succeeds only with a value in the 32-bit int range |
| ScoreFile.ParseLine | core/game.cpp:605-612 | a line that parses yields a token name and a 32-bit score |
| ScoreFile.DigitChar | core/game.cpp:631 | each decimal digit is written as the character that reads back as it |
| ScoreFile.NatToString | core/game.cpp:631 | a natural number is written as a non-empty run of digits whose value is the number |
| ScoreFile.IntToString | core/game.cpp:631 | an integer is written as a non-empty string |
| ScoreFile.FormatLine | core/game.cpp:631 | a saved line is longer than the name it holds |
| ScoreFile.IntRoundTrip | core/game.cpp:608 | after any whitespace, a written 32-bit integer reads back as itself |
| ScoreFile.SkipSpacePrefix | core/game.cpp:608 | skipping whitespace before a string that starts with a non-space gives that string |
| ScoreFile.DigitRunWhole | core/game.cpp:608 | the digit run of a string of digits is the whole string |
| ScoreFile.TokenRoundTrip | core/game.cpp:608 | a token followed by whitespace reads back as that token with the rest left over |
| ScoreFile.TokenRunWhole | core/game.cpp:608 | a whitespace-free name followed by whitespace has the name's length as its token length |
| ScoreFile.LineRoundTrip | core/game.cpp:631 | the line saved for an entry with a token name and a 32-bit score parses back to that entry |
| ScoreFile.SavedLines | core/game.cpp:627-638 | one saved line per entry, in table order |
| ScoreFile.ParsedLines | core/game.cpp:604-608 | one parse result per line, in file order |
| ScoreFile.Kept | core/game.cpp:602-614 | the read loop keeps at most room entries, and no more than there are lines |
| ScoreFile.KeptFrom | core/game.cpp:604-613 | every kept entry is the result of a line that parsed |
| ScoreFile.KeptStep | core/game.cpp:604-613 | with room left, reading one more line keeps its entry exactly when it parses |
| ScoreFile.LoadedWellFormed | core/game.cpp:604-613 | every loaded entry has a token name and a 32-bit score |
| ScoreFile.SaveLoadRoundTrip | core/game.cpp:627-638 | saving a table of storable entries that fits the room and reading it back gives the same table |
| ScoreFile.KeptAllSome | core/game.cpp:604-613 | when every line parses and they fit the room, the read loop keeps exactly their entries |
| NameEntry.TypedAsWritten | core/game.cpp:773-774 | the character the entry screen appends for a key as written: the key's low byte, when that byte is alphanumeric |
| NameEntry.Typed | core/game.cpp:773-774 | a key types a character exactly when it is itself an alphanumeric ASCII code, and then types that character |
| NameEntry.TypedAgreesOnByteKeys | core/game.cpp:773-774 | for key codes below 256 the written rule and the intended rule agree |
| NameEntry.HomeKeyTypesJ | core/game.cpp:773-774 | the Home key types 'J' by the written rule and nothing by the intended one |
| NameEntry.ApplyKey | core/game.cpp:768-779 | the arrow keys change neither the buffer nor the input state |
| NameEntry.KeyRuleAsWritten | core/game.cpp:766-780 | the key rule the session follows: input ends exactly on Return or Escape; Escape gives ANON; Backspace pops a non-empty buffer; any non-arrow key whose low byte is alphanumeric appends that byte exactly when the buffer is shorter than 10; nothing else changes the buffer, which stays within 10 alphanumeric characters |
| NameEntry.KeyRule | core/game.cpp:766-780 | input ends exactly on Return or Escape; Escape gives ANON; Backspace pops a non-empty buffer; an alphanumeric key is appended exactly when the buffer is shorter than 10; nothing else changes the buffer |
| NameEntry.EventStep | core/game.cpp:762-781 | one event, keys going through the key rule as written, never restarts input or the game and keeps the buffer within 10 alphanumeric characters |
| NameEntry.PollKeeps | core/game.cpp:762-781 | a whole poll under the key rule as written keeps the buffer valid and never restarts input or the game |
| NameEntry.SessionKeeps | core/game.cpp:752-784 | the whole entry session under the key rule as written keeps the buffer valid and never restarts the game |
| NameEntry.EnterName | core/game.cpp:751-784 | the input loop's result is the session's buffer and running flag (keys read by the rule as written); the buffer holds at most 10 alphanumeric characters |
| NameEntry.FirstNotBlank | core/game.cpp:788 | the position of the first character that is neither space nor tab, or the length |
| NameEntry.EndNotBlank | core/game.cpp:789 | one past the last character that is neither space nor tab, or 0 |
| NameEntry.Trim | core/game.cpp:787-794 | empty exactly when the name is all blanks; otherwise the slice between the first and last non-blank characters, with no blank at either end; a name without blanks stays |
| NameEntry.FinalName | core/game.cpp:786-798 | the final name is never empty: the trimmed name, or ANON when that is empty |
| NameEntry.TypedNameIsKept | core/game.cpp:786-798 | a typed buffer is kept as it is, or becomes ANON when empty, and is a single token for the score file |
| ShotRules.FirstHit | core/game.cpp:470-481 | the first opponent that is alive and overlaps the shot, and none exactly when no alive opponent overlaps it |
| ShotRules.Shoot | core/game.cpp:470-481 | one shot against the opponents' healths keeps their number |
| ShotRules.AfterShots | core/game.cpp:467-487 | the healths after a run of shots keep their number |
| ShotRules.Unspent | core/game.cpp:482-486 | the projectiles left after the phase are no more than before |
| ShotRules.UnspentFrom | core/game.cpp:482-486 | every projectile left was there before, and none appears twice |
| ShotRules.SpentCount | core/game.cpp:482-486 | no more projectiles are spent than were fired |
| ShotRules.KillSum | core/game.cpp:474-476 | the sum over opponents killed in the phase of their values is never negative for non-negative values |
| ShotRules.ShotStep | core/game.cpp:467-487 | the healths after one more shot are the previous healths hit by that shot |
| ShotRules.ShootEffect | core/game.cpp:470-481 | a shot lowers the total health by exactly 1 when it hits an alive opponent and by 0 otherwise, lowers no opponent's health and never takes one below 0 |
| ShotRules.TotalUpdate | core/game.cpp:473 | changing one health changes the total by exactly the difference |
| ShotRules.ShotsCostOneEach | core/game.cpp:465-487 | over the phase the total opponent health drops by exactly the number of projectiles erased |
| ShotRules.ShotsOnlyLower | core/game.cpp:465-487 | later shots never raise an opponent's health and never take it below 0 |
| ShotRules.KeptShotMissesSurvivors | core/game.cpp:470-486 | a projectile that survives the phase overlaps no opponent that is still alive at the end |
| ShotRules.KillSumUpdate | core/game.cpp:474-476 | one more damaged opponent adds its value to the kill sum exactly when that damage kills it |
| ShotRules.KillSumUnchanged | core/game.cpp:474-476 | with no health changed, nothing is scored |
| ShotRules.Gain | core/game.cpp:474-476 | a shot that hits nothing scores 0, and a scoring shot scores the value of an opponent it finished from health 1 |
| ShotRules.Step | core/game.cpp:468-486 | one projectile either is erased or is kept at the end of the kept list |
| ShotRules.Run | core/game.cpp:467-487 | the fold of the phase keeps the number of opponents and keeps no more projectiles than fired |
| ShotRules.RunStep | core/game.cpp:467-487 | the fold over one more projectile is one more step |
| ShotRules.RunHealths | core/game.cpp:467-487 | the fold's healths are the healths after the shots, never above the start |
| ShotRules.RunKept | core/game.cpp:482-486 | the fold keeps exactly the projectiles that hit nothing |
| ShotRules.RunGains | core/game.cpp:474-476 | the fold's score and particle count are the kill sums of scores and explosion sizes |
| ContactRules.Barrage | core/game.cpp:513-534 | an opponent's volley leaves the player's health in [0, h] and keeps no more projectiles than it had |
| ContactRules.Hits | core/game.cpp:519-522 | the number of projectiles overlapping the player is at most their number |
| ContactRules.BarrageCost | core/game.cpp:513-534 | the health the volley costs equals the number of projectiles it erases |
| ContactRules.BarrageHealth | core/game.cpp:513-534 | the health after the volley is h minus the hits, or 0 when the hits reach h |
| ContactRules.BarrageKeeps | core/game.cpp:526 | every projectile left was in the volley, and none appears twice |
| ContactRules.BarrageAt | core/game.cpp:514-534 | one projectile of the volley: an overlapping one costs one health and is erased, and ends the volley when it kills; any other is kept |
| ContactRules.Meet | core/game.cpp:493-534 | an opponent is erased exactly when it is alive and overlaps the player; only an erased one scores or explodes; the player's health stays in [0, h] |
| ContactRules.MeetCost | core/game.cpp:493-534 | the health one opponent costs is 1 for a body contact plus one per projectile it loses |
| ContactRules.Scan | core/game.cpp:491-541 | the phase's scan visits at most all opponents and leaves the player's health in [0, h] |
| ContactRules.Glue | core/game.cpp:491-541 | joining two parts of the scan adds up their visited opponents |
| ContactRules.ScanAt | core/game.cpp:491-541 | the scan from an opponent meets it and stops if the player died, else goes on from the next one |
| ContactRules.GlueAssoc | core/game.cpp:491-541 | joining parts of the scan is associative |
| ContactRules.Extend | core/game.cpp:491-541 | one more encounter appends its erase flag and kept projectiles and adds its score and particles |
| ContactRules.ScanStep | core/game.cpp:491-541 | the loop's accumulated state extended by one encounter is still a prefix of the scan |
| ContactRules.ScanEnd | core/game.cpp:491-541 | the accumulated state at the end of the opponents is the whole scan |
| ContactRules.Count | core/game.cpp:504 | the number of erased opponents is at most the number visited |
| ContactRules.ScanCost | core/game.cpp:490-541 | the phase costs the player exactly one health per opponent erased plus one per opponent projectile erased |
| ContactRules.ScanErases | core/game.cpp:493-510 | a visited opponent is erased exactly when it was alive and overlapped the player; the score and the particles gained are those of the erased opponents |
| ContactRules.ScanStopsOnlyAtDeath | core/game.cpp:505-508 | the scan visits every opponent unless the player's health reaches 0, and stops short only then |
| ContactRules.Keep | core/game.cpp:504 | erasing the marked opponents leaves as many as were not marked |
| ContactRules.KeepSnoc | core/game.cpp:504 | erasing over one more opponent keeps it exactly when it is not marked |
| ContactRules.KeepPrefix | core/game.cpp:504 | the same for a prefix of the opponent list |
| ContactRules.KeepHas | core/game.cpp:504 | every unmarked opponent is kept |
| ContactRules.KeepOnly | core/game.cpp:504 | everything kept is an unmarked opponent |
| ContactRules.KeepNoDup | core/game.cpp:504 | erasing from a list without repeats leaves a list without repeats |
| ContactRules.KeepThenRest | core/game.cpp:491-541 | the opponents after the phase all come from the list, without repeats |
| ContactRules.TurnAsWritten | core/game.cpp:491-541 | one turn of the loop as written keeps the opponents' shape |
| ContactRules.TurnsAsWritten | core/game.cpp:491-541 | any number of turns of the loop as written keeps the opponents' shape |
| ContactRules.StuckAsWritten | core/game.cpp:537-539 | with the state already GAME_OVER, the loop as written never leaves an alive opponent that neither touches the player nor hits it with a shot |
| ContactRules.NoHitsKeepsAll | core/game.cpp:514-534 | a volley with no hits costs nothing and keeps every projectile |
| ContactRules.StuckExample | core/game.cpp:537-539 | a concrete opponent and player on which the loop as written stays at the same opponent for any number of turns |
| ContactRules.ScanMovesOn | core/game.cpp:491-541 | the intended loop moves on to the next opponent whenever the player survives an encounter |
| Collisions.OpponentShotsHas | core/game.cpp:338-341 | every projectile of every opponent is in the opponents' shot set |
| Collisions.FindTarget | core/game.cpp:470-481 | the inner loop finds exactly the first alive opponent the shot overlaps |
| Collisions.Strike | core/game.cpp:473-477 | the struck opponent loses exactly one health; when that kills it, it scores its value and explodes its particle count |
| Collisions.ShootOne | core/game.cpp:468-486 | one shot changes the healths as the pure rule says, scores and explodes as the rule says, and touches no shots, timers or angles |
| Collisions.ShootAll | core/game.cpp:467-487 | the whole projectile loop matches the fold: healths, kept projectiles, score and particle count |
| Collisions.ResolveShots | core/game.cpp:465-487 | phase 1 on the opponent objects: healths after the shots, the projectiles that hit nothing, the kill sum as score, and the kill sum of explosion sizes as new particles |
| Collisions.DodgeVolley | core/game.cpp:513-534 | one opponent's projectile loop ends with the volley's health and projectiles |
| Collisions.Engage | core/game.cpp:493-534 | one opponent against the player: the encounter's health, erase flag, kept shots, score and particles |
| Collisions.ContactOne | core/game.cpp:492-539 | one turn of the intended opponent loop extends the scan by that opponent's encounter |
| Collisions.ContactAll | core/game.cpp:491-541 | the intended opponent loop computes the scan: player health, remaining opponents, their shots, score and particles |
| Collisions.ResolveContacts | core/game.cpp:490-541 | phase 2 on the objects: the scan's health, the opponents not erased followed by those never visited, the scan's kept shots, score and particles; opponent health, position and timers stay |
| Collisions.PlayerShots | core/game.cpp:466-487 | phase 1 for the player: health and position stay, only shots already held are left, particles are only appended |
| Collisions.KeptShots | core/game.cpp:465-487 | the projectiles left after phase 1 are some of those fired, each held once; opponents stay well formed; particles are only appended |
| Collisions.PlayerContacts | core/game.cpp:490-541 | phase 2 for the player: health never rises, position and shots stay, the remaining opponents come from the list without repeats |
| Games.MenuButtonsDisjoint | core/game.cpp:127-129 | no point lies on two menu buttons, so the order of the click tests does not matter |
| Games.MenuActionOf | core/game.cpp:115-138 | Quit or Escape exits, Return starts, other keys and events do nothing, and a click acts only inside the matching button |
| Games.MenuScreenAfter | core/game.cpp:115-138 | the screen after menu actions is the old one, playing or how-to-play, and only a start or how-to-play action changes it |
| Games.MenuActions | core/game.cpp:115-138 | one menu action per polled event |
| Games.FirstEscape | core/game.cpp:215-224 | the position of the first Escape press, or the length when there is none |
| Games.CameraTarget | core/game.cpp:548-553 | the camera x is at most the world width minus the window width, unless that is below 0, and at least 0, unless clamped to that upper bound |
| Games.CameraInWorld | core/game.cpp:545-554 | with a window no wider than the world, the camera stays in [0, worldWidth - windowWidth], and equals the player's x minus half the window whenever that is in range |
| Games.Clamped | core/game.cpp:287-295 | the clamp keeps the size, and leaves each coordinate alone when the rectangle is already inside on that axis |
| Games.ClampedInside | core/game.cpp:287-295 | a player no larger than the world ends up wholly inside it |
| Games.InsertedStorable | core/game.cpp:659-672 | inserting an entry with a token name and a 32-bit score keeps every entry storable |
| Games.KeepParsed | core/game.cpp:602-613 | the read loop keeps exactly the entries the file model keeps |
| Games.ReadEntries | core/game.cpp:599-614 | the entries read from the lines are the file model's, at most 10, all storable |
| Games.PermutationStorable | core/game.cpp:618-620 | reordering the table keeps every entry storable |
| Games.InsertEntry | core/game.cpp:663-669 | the vector insert and pop give the inserted table |
| Games.SpawnKind | core/game.cpp:452-459 | draw % 3 picks basic at 0, aggressive at 1 and sniper at 2 |
| Games.Survivors | core/game.cpp:305-319 | the prune keeps no more opponents than there were |
| Games.FallenBasic | core/game.cpp:307-312 | no more opponents fall than there are |
| Games.SurvivorsMembers | core/game.cpp:305-319 | an opponent survives the prune exactly when it was there, is alive and is not below the world; no opponent is kept twice |
| Games.OnlyFallenBasicCost | core/game.cpp:307-312 | no world health is lost exactly when no basic opponent is below the world |
| Games.PruneStep | core/game.cpp:306-318 | the prune over a list extended by one opponent keeps it when alive and in the world, and charges one world health when it is a basic one below the world |
| Games.AliveAggressive | core/game.cpp:299-303 | the number of live aggressive opponents is at most the number of opponents |
| Games.InWorld | core/game.cpp:329 | the projectiles kept in the world are no more than before |
| Games.InWorldMembers | core/game.cpp:329-333 | a projectile is kept exactly when it was there and is within 100 of the world on every side; none appears twice |
| Games.InWorldStep | core/game.cpp:324-334 | the prune over one more projectile keeps it exactly when it is within the margin |
| Games.AdvanceAndPrune | core/game.cpp:322-335 | every player projectile moves once, and the kept ones are exactly those then within the margin |
| Games.PruneOutOfWorld | core/game.cpp:345-353 | the erase loop keeps exactly the projectiles within the margin, in order |
| Games.LiveParticles | core/game.cpp:356-363 | the particles kept are no more than before |
| Games.PruneOpponentList | core/game.cpp:305-319 | the erase loop keeps the survivors, lowers the world health by the fallen basic opponents, and sets GAME_OVER only when one fell and the world health is then at most 0 |
| Games.AdvanceOpponentProjectiles | core/game.cpp:341-353 | every shot of the opponent moves once, and the opponent keeps exactly those then within the margin |
| Games.LiveParticlesMembers | core/game.cpp:356-363 | a particle is kept exactly when it was there and is alive |
| Games.LiveParticlesStep | core/game.cpp:356-363 | the particle prune over one more particle keeps it exactly when it is alive |
| Games.PruneDeadParticles | core/game.cpp:356-363 | the erase loop keeps exactly the live particles, in order |
| Games.UpdateEach | core/game.cpp:298-303 | every live opponent runs its update once: health stays, dead ones stay put, basic ones hold no shots, one draw per live aggressive opponent |
| Games.CloseButton | core/game.cpp:688-694 | the 'X' button is a 20x20 square whose right edge lies 10 pixels from the window's right edge and whose top is at 10 |
| Games.WaitStep | core/game.cpp:717-730 | one event ends the wait exactly when it is Quit, Return or Escape, or a left click inside the 'X' button; it stops the game exactly when it is Quit |
| Games.WaitPoll | core/game.cpp:717-730 | a whole poll is handled even after the wait ends: the wait ends exactly when some event closes it, and the game stops exactly when some event is Quit |
| Games.ClosingPoll | core/game.cpp:698-735 | the first poll holding a closing event: none before it does, and it does unless it is past the end |
| Games.WaitOutcome | core/game.cpp:698-735 | a running game still waits after the polls only when none closes the screen, and stops exactly when the closing poll holds a Quit; a stopped game does not wait |
| Games.WaitForClose | core/game.cpp:698-735 | the nested poll loop computes the wait: the game runs afterwards exactly when it ran before and the closing poll holds no Quit |
| Games.PollQuit | core/game.cpp:196-210 | the game still runs after the poll exactly when it ran before and no Quit came before the stop |
| Games.Game.constructor | core/game.cpp:15-55 | on the menu, running, world and player health 10, score 0, camera 0, world 600 high, no player, opponents or particles, and the table loaded from the file: descending and a permutation of the kept lines |
| Games.Game.SetWindowSize | core/game.cpp:161-162 | the window size is stored and the world height follows the window height; nothing else changes |
| Games.Game.LoadHighScores | core/game.cpp:599-624 | the table becomes the kept entries of the file, sorted descending, at most 10, all storable |
| Games.Game.SaveHighScores | core/game.cpp:627-638 | the file becomes one line per entry, and reading it back gives the table when the entries are storable |
| Games.Game.AddHighScore | core/game.cpp:659-672 | the table becomes the inserted table; the file is rewritten only when the score ranks, and then reads back as the table |
| Games.Game.PlayGame | core/game.cpp:142-150 | a fresh game: a new player at the start position, no opponents or particles, camera 0, world health 10, state playing |
| Games.Game.MenuAct | core/game.cpp:117-137 | exit stops the game, start begins a fresh game, how-to-play switches screens, and nothing else changes |
| Games.Game.HandleMenuEvents | core/game.cpp:113-140 | the game runs on exactly when no event exits; the screen is the one the actions lead to; a fresh game begins exactly when some event starts one |
| Games.Game.HandleHowToPlayEvents | core/game.cpp:824-838 | Quit stops the game; Escape, Return or any click return to the menu; nothing else changes |
| Games.Game.HandleEvents | core/game.cpp:191-229 | events up to the first Escape are polled, Quit among them stops the game and the Escape returns to the menu; while playing with no Escape, the player's input is handled as handleInput says; otherwise the player stays |
| Games.Game.HandleGameOver | core/game.cpp:675-739 | a score that ranks is inserted under the trimmed name the session typed (keys read by the rule as written) and the file rewritten; otherwise the table and file stay and the game keeps running exactly when it ran and the poll that closes the wait screen holds no Quit; the screen returns to the menu |
| Games.Game.UpdateCamera | core/game.cpp:545-554 | the camera follows the clamped target with a player and stays without one |
| Games.Game.ClampPlayer | core/game.cpp:287-295 | the player's rectangle is clamped into the world and nothing else of it changes |
| Games.Game.SpawnOpponent | core/game.cpp:451-460 | exactly one fresh alive opponent is appended, of the kind the draw picks, at x = draw % 6350 and y = -50 |
| Games.Game.UpdateOpponents | core/game.cpp:298-303 | every live opponent runs its update; health stays, dead ones stay put, basic ones hold no shots |
| Games.Game.PruneOpponents | core/game.cpp:305-319 | the opponents become the survivors, the world health drops by the fallen basic ones, and the state becomes GAME_OVER only when one fell and the world health is then at most 0 |
| Games.Game.UpdatePlayerProjectiles | core/game.cpp:321-336 | every player projectile moves once and the player keeps exactly those within the margin |
| Games.Game.UpdateOpponentProjectiles | core/game.cpp:338-354 | every opponent keeps only shots it held before, no more of them; opponents do not move or heal |
| Games.Game.PruneParticles | core/game.cpp:356-363 | the particles become the live ones, in order |
| Games.Game.ShootOpponents | core/game.cpp:465-487 | phase 1: the player's health and position stay, only projectiles already held are left, particles are only appended |
| Games.Game.TouchOpponents | core/game.cpp:490-541 | phase 2: the player's health never rises; the state is GAME_OVER exactly when it reaches 0; the displayed health follows every loss; opponents are only removed; particles are only appended |
| Games.Game.CheckCollisions | core/game.cpp:462-543 | nothing without a player; otherwise both phases, with GAME_OVER exactly when a living player's health reaches 0 |

## Left out

- Rendering, textures, fonts, sound, the SDL window and the frame timing of `Game::run`
  are not modelled. `Game::run` itself is left out: the per-frame steps of `Game::update`
  are modelled one method each, but not composed into a single frame method.
- The opponent spawn timer, and the world-width integer conversion in `spawnOpponent`, are
  left out: `SpawnOpponent` takes its draws as parameters.
- Floating point is modelled as `real`: rounding, `float` to `int` overflow and NaN are
  left out.
- `sin`, `cos` and `sqrt` are parameters, so no property needs their exact values. Only
  `-1 <= sin <= 1` (`IsSine`) and "`sqrt` is the square root" (`IsSqrt`) are assumed,
  each only by the contracts that need it.
- The 32-bit wrap-around of `m_playerScore` and `m_worldHealth` is not modelled: the score
  grows by a few hundred a kill and the world health starts at 10.
- Particle motion, growth and fade (`Particle::update`, `Particle::isAlive`) are left out.
  `PruneParticles` takes the liveness test as a parameter.
- Health items are modelled as objects, but core/game.h and core/game.cpp give `Game` no
  health-item member, so their spawning and pickup are not modelled.
- `BaseOpponent::isHit` is declared in entities/opponents/base_opponent.h and has no
  definition in base_opponent.cpp. It is modelled as the same strict overlap as
  `Player::isHit`.
- `m_fireAccuracy` is set by the sniper but never read, so it has no effect.
- The opponent headers and sources disagree on the update signature: base_opponent.h and
  aggressive_opponent.cpp take `screenWidth`, basic_opponent.cpp adds `screenHeight`, and
  the kind headers and sniper_opponent.cpp take a `GameStateData`. Every kind gets one
  signature `(dt, playerPos, cameraX, screenWidth)`, and each file's body is modelled as
  written.
- The base opponent's `explode` reads `m_explosionConfig`, which only the sniper sets. The
  basic and aggressive kinds write their numbers into their own `explode` bodies. The model
  gathers each kind's numbers in one record.
- `plf::colony` and vector erase-in-place are modelled as sequences the loops rebuild in
  order. Iterator invalidation and memory layout are not modelled.
- A null opponent pointer in the opponent list is not modelled: the list holds objects.
- `std::sort` is not stable, and the model sorts stably. `HighScores.SortedScoresDetermined`
  shows that any two descending orders of one table have the same scores, so only the
  order of equal scores can differ.
- The file's open or write failures are left out: the file is a sequence of lines that
  always exists.
- Games.Game.HandleGameOver: the same polls feed either the name-entry screen or the plain
  game-over wait, whichever the score selects; `SDL_FlushEvents` before the wait is taken
  to have happened, so the polls are the events that follow it.
- Player projectiles move twice a frame in the source: once in the loop at
  core/game.cpp:283-285 and once in the prune at 325. The model has both steps.
  `Games.AdvanceAndPrune` moves every projectile, then prunes. That gives the same list as
  the source's single pass, which moves and tests one projectile at a time.
- Games.Game.ShootOpponents: states less than `Collisions.ResolveShots`. Opponent healths,
  score and particle counts are stated exactly there, and only framing facts here, to keep
  the `Game` proofs small.
- Games.Game.TouchOpponents: states less than `Collisions.ResolveContacts`. The exact health,
  remaining opponents, kept shots and score are stated there.
- Games.Game.CheckCollisions: states the state, health and framing facts of both phases. The
  exact effect of each phase is stated by `Collisions.ResolveShots` and
  `Collisions.ResolveContacts`.
- Collisions.PlayerShots: a wrapper that keeps only what `Game` needs of
  `Collisions.ResolveShots`.
- Collisions.KeptShots: a wrapper that keeps only the membership and well-formedness
  facts of `Collisions.ResolveShots`.
- Collisions.PlayerContacts: a wrapper that keeps only what `Game` needs of
  `Collisions.ResolveContacts`.
- Collisions.ContactAll, Collisions.ResolveContacts, Collisions.PlayerContacts,
  Games.Game.TouchOpponents and Games.Game.CheckCollisions follow the corrected contact loop (`ContactRules.Scan`). When
  the state is already GAME_OVER on entry to `checkCollisions` (set by the opponent prune
  at core/game.cpp:311, in the same frame as the call at 364), they return. The source's
  loop at core/game.cpp:537-539 instead sticks on the first opponent the player survives.
  That behaviour is modelled only by `ContactRules.TurnsAsWritten` and
  `ContactRules.StuckAsWritten` (see "## Findings").
- Games.Game.UpdateOpponentProjectiles: states that every opponent keeps a subset of its
  shots. The exact kept list for one opponent is stated by
  `Games.AdvanceOpponentProjectiles`.
- Games.Game.UpdateOpponents: does not state each opponent's new position. That is stated
  per kind by `Opponents.Opponent.UpdateBasic`, `UpdateAggressive` and `UpdateSniper`.
- Games.UpdateEach: as `Games.Game.UpdateOpponents`.
- Opponents.Opponent.Update: as `Games.Game.UpdateOpponents`.

## Findings

| source | as written | input that shows it | evidently intended | confidence | as-written member | corrected member |
|---|---|---|---|---|---|---|
| core/game.cpp:773-774 | The name-entry screen tests `isalnum` on the SDL3 key code cut to its low byte, and appends that byte. | The Home key, code 0x4000004A, has low byte 0x4A, so it types 'J' into an empty name (`NameEntry.HomeKeyTypesJ`). Other non-character keys do the same. | Only keys that are themselves alphanumeric ASCII characters type; the two rules agree on every code below 256 (`NameEntry.TypedAgreesOnByteKeys`). The entry session follows the rule as written. | not executed | NameEntry.KeyRuleAsWritten | NameEntry.KeyRule |
| core/game.cpp:537-539 | The contact loop moves past an opponent that was not erased only if the state is not GAME_OVER. | `update` sets GAME_OVER in the opponent prune when the world health reaches 0, then calls `checkCollisions` in the same frame. A living player and an alive opponent that neither touches the player nor hits it then leave the loop stuck on that opponent for ever (`ContactRules.StuckAsWritten`, `ContactRules.StuckExample`). | The loop moves on after every opponent the player survives and stops only at the player's death (`ContactRules.ScanMovesOn`, `ContactRules.ScanStopsOnlyAtDeath`). `Collisions.ResolveContacts` uses this loop. | not executed | ContactRules.TurnsAsWritten | ContactRules.Scan |
