# Artillery prototype: terrain, players, projectiles and turns

This project models the logic of a two-player artillery game prototype
(`Pygame_main.py`) and proves properties of it. The rendering and the pygame
event loop are not part of the model.

- **Terrain** (`terrain.dfy`, module `Terrains`). The terrain is a 144 x 256
  grid of tiles kept in an `array2<int>`, where 0 is empty and 1 is earth.
  `Terrain()` fills it with a flat plateau. `DestroyTerrain` clears a disk of
  tiles around an explosion. Both are proved against value-level functions on
  the grid (`Plateau`, `Carve`) through the abstraction `Cells()`.
- **Players** (`players.dfy`, module `Players`). A player is a 20 x 20 box.
  Its foot probe reads the tile one pixel below its bottom edge. Each update
  drops it 2 pixels when the probe finds no earth, then nudges it up one pixel
  at a time while the probe finds earth, then steps it back down one pixel.
  A sideways move is made only when the box stays on screen, and is dropped
  otherwise.
- **Projectiles** (`trails.dfy` and `projectiles.dfy`, modules `Trails` and
  `Projectiles`). A projectile is a point mass under gravity 0.1 with a
  rounded centre. It keeps a trail of its last 50 centres. On the first
  centre that falls on earth it explodes, carving one or three craters chosen
  by the shooter's character type and bonus flag, and then stays inert. It
  leaves the group when it hits or when it leaves the flight area.
- **Turns** (`turns.dfy`, module `Turns`). The phase machine is a value:
  - MOVE lasts 5 seconds.
  - AIM_1 swings an angle gauge between 0 and 180 degrees.
  - AIM_2 runs a bonus gauge for at most 3 seconds. Pressing fire while the
    indicator overlaps the target earns a bonus shot.
  - FIRE lasts until no projectile is left, and then the other player's MOVE
    starts.
  - GAMEOVER comes when a player falls below the screen.

  The clock, the fire key and whether the projectile group is empty are
  inputs.
- **Game** (`game.dfy`, module `Games`). The class `Game` runs the same
  transitions on its fields.
  - `HandleEvents` processes one frame's key events.
  - `Update` runs one frame in order: the phase logic, each player's physics,
    each projectile's flight step, then the fall check.
  - Its methods are proved against the `Turns` functions through the ghost
    view `Machine()`.
  - The projectile group's update is proved against `Flights` (each
    projectile took one motion step), `HitsInTurn` (each one hit exactly when
    its centre is on earth in the terrain as the projectiles before it in the
    group left it), `Survivors` (which ones stay in the group) and
    `Explosions` (the craters carved, in order). `GroupFlown` is the four
    together, as the group's update states them.

Screen constants are in `screen.dfy` (module `Screen`).

Floating-point values (projectile positions and velocities, the angle gauge
and the bonus gauge) are modelled as exact reals. Python's `round` is modelled
as round-half-to-even (`Projectiles.Round`). pygame stores a float `Rect`
coordinate by truncating it toward zero (`Turns.Trunc`). Python's `//` with
the positive divisor 5 is Dafny's `/`, for negative coordinates too.

## Model

| member | source | states |
|---|---|---|
| Terrains.FlatMapLayout | Pygame_main.py:89-94 | the flat map has earth exactly in rows 108..143 and columns 51..203 |
| Terrains.Terrain.constructor | Pygame_main.py:84-87 | a new terrain is 144 x 256 and holds the flat map |
| Terrains.Terrain.CreateFlatMap | Pygame_main.py:89-94 | sets exactly the plateau tiles to earth and leaves every other tile unchanged |
| Terrains.Terrain.DestroyTerrain | Pygame_main.py:104-115 | the new grid is `Carve` of the old one: exactly the in-bounds tiles in the disk of tile radius radius//5 around (x//5, y//5) become 0, and every other tile is unchanged |
| Terrains.Carve | Pygame_main.py:104-115 | the value-level crater keeps the grid 144 x 256; which tiles it clears is stated by the three lemmas below |
| Terrains.CarveRemovesSolidsInCrater | Pygame_main.py:104-115 | the earth tiles after carving are exactly the earth tiles outside the crater, so carving never creates earth |
| Terrains.CarveIdempotent | Pygame_main.py:104-115 | carving the same crater twice equals carving it once |
| Terrains.CarveCommutes | Pygame_main.py:104-115 | two craters can be carved in either order |
| Players.Player.constructor | Pygame_main.py:30-39 | the box is centred on the given point, at angle 45, facing right, and on screen when the centre allows it |
| Players.Standing | Pygame_main.py:51-58 | the foot probe finds ground only where the probe pixel (centre column, bottom + 1) lies on the map; the tile test is stated by Player.IsOnGround |
| Players.Player.IsOnGround | Pygame_main.py:51-58 | false when the foot tile (centerx//5, (bottom+1)//5) is off the map, otherwise true exactly when that tile is 1 |
| Players.RiseClearIsFirst | Pygame_main.py:47-48 | the nudge-up loop stops at the first position, going up, where the probe finds no ground |
| Players.UpdateTop | Pygame_main.py:41-49 | after an update the probe one pixel higher finds no ground; the box drops at most 3 pixels, and at most 1 when it started on ground |
| Players.Player.Update | Pygame_main.py:41-49 | the loop terminates, only the top row changes, and it becomes `UpdateTop` of the terrain, the centre column and the old top |
| Players.RestingAligned | Pygame_main.py:47-49 | a box whose probe finds ground, but would not one pixel higher, has its probe on the first pixel row of a tile |
| Players.RestingIsFixedPoint | Pygame_main.py:41-49 | if the box is on ground after an update, a second update with the same terrain leaves it where it is |
| Players.FreeFall | Pygame_main.py:43-49 | with no ground at the current position or 2 pixels lower, an update drops the box by 3 pixels |
| Players.FlatMapLanding | Pygame_main.py:41-49 | over the plateau of the flat map the box falls 3 pixels per update until its top reaches row 519, and then rests there |
| Players.MoveTo | Pygame_main.py:61-72 | an accepted move shifts the box by dx and faces right for dx > 0, left for dx < 0, unchanged for 0; a rejected move changes nothing |
| Players.Player.Move | Pygame_main.py:61-72 | the left edge and facing become `MoveTo` of the old ones; y and the terrain are untouched; an on-screen box stays on screen |
| Players.MoveStaysOnScreen | Pygame_main.py:65 | an accepted move keeps an on-screen box on screen |
| Trails.Trail | Pygame_main.py:144-146 | the new point is appended, and the oldest point is dropped once there are more than 50 |
| Trails.TrailKeepsLatest | Pygame_main.py:144-146 | the trail holds the latest min(n, 50) of the n points recorded, in order |
| Projectiles.Round | Pygame_main.py:142 | the result is within 0.5 of the argument, and a tie goes to the even neighbour |
| Projectiles.ExplosionBlasts | Pygame_main.py:163-182 | one crater centred on the projectile, of radius 50 for character 2's bonus shot and 30 otherwise; character 1's bonus shot adds radius-30 craters 10 pixels to either side, character 3's bonus shot radius-15 craters 40 pixels to either side, and every other shot has the centre crater only |
| Projectiles.ApplyBlastsAppend | Pygame_main.py:170-182 | carving two lists of craters one after the other equals carving their concatenation |
| Projectiles.ApplyBlastsClearsUnion | Pygame_main.py:170-182 | carving a list of craters clears exactly the tiles that some crater covers |
| Projectiles.CraterGrows | Pygame_main.py:106-112 | a crater lies inside any crater of larger radius with the same centre |
| Projectiles.BonusCarvesAtLeastNormal | Pygame_main.py:163-182 | a bonus explosion leaves no earth tile that the same character's ordinary explosion would clear |
| Projectiles.ExplosionClearsCentre | Pygame_main.py:162-182 | no earth is left inside an explosion's central crater |
| Projectiles.Hits | Pygame_main.py:149-153 | a hit happens only where the centre lies on the map; the tile test is stated by Projectile.Land |
| Projectiles.Projectile.constructor | Pygame_main.py:119-135 | the projectile is centred on the launch point, with the given velocity, an empty trail, not hit and in the group |
| Projectiles.Projectile.Update | Pygame_main.py:137-159 | once hit, nothing changes; otherwise the velocity, position, rounded centre and trail advance, it hits exactly when the centre tile is earth, the terrain is carved only on a hit, and it stays in the group exactly when it did not hit and is inside the flight area |
| Projectiles.Projectile.Fly | Pygame_main.py:139-159 | a projectile not yet hit: the velocity, position, rounded centre and trail advance, it hits exactly when the centre tile is earth, the terrain is carved only on a hit, and it stays in the group exactly when it did not hit and is inside the flight area |
| Projectiles.Projectile.Advance | Pygame_main.py:139-146 | gravity, position, rounded centre and the capped trail after one step |
| Projectiles.Projectile.Land | Pygame_main.py:148-159 | a hit exactly when the in-bounds centre tile is earth, then the explosion's craters are carved; membership afterwards is as in Update |
| Projectiles.Projectile.Explode | Pygame_main.py:162-186 | the terrain becomes the old one with `ExplosionBlasts` carved in order, and the projectile leaves the group |
| Turns.Initial | Pygame_main.py:216-231 | a new game starts in MOVE with player 0 on turn and no winner |
| Turns.InitialConsistent | Pygame_main.py:216-231 | the initial machine satisfies the invariant |
| Turns.Trunc | Pygame_main.py:273-274 | truncation toward zero |
| Turns.ColliderectIffSharedPixel | Pygame_main.py:277 | colliderect on rectangles of non-negative size holds exactly when some pixel lies in both |
| Turns.BonusHit | Pygame_main.py:269-277 | the bonus is earned exactly when the indicator's top row lies strictly between 5 rows above the target's top and the target's bottom |
| Turns.BonusIffRowsOverlap | Pygame_main.py:272-277 | the bonus is earned exactly when the indicator and the target share a pixel row, because their columns coincide |
| Turns.TargetY | Pygame_main.py:266 | the target's top lies in [270, 450) |
| Turns.FireAngle | Pygame_main.py:334-336 | the launch angle is the aim angle facing right and 180 minus it facing left |
| Turns.StepAngle | Pygame_main.py:298-300 | the angle moves by the speed, and the speed reverses exactly when the new angle is past 0 or 180 |
| Turns.StepGauge | Pygame_main.py:310-313 | the gauge moves by 8.05 in its direction, and the direction reverses exactly when the new value is at or past 0 or 200 |
| Turns.NextTurn | Pygame_main.py:348-353 | the other player's MOVE with timer = now |
| Turns.Tick | Pygame_main.py:289-318 | the per-phase update of a frame; the winner is kept, and the turn changes exactly when FIRE finds no projectile left |
| Turns.PressFire | Pygame_main.py:258-284 | the fire key; it changes the machine exactly in AIM_1 and AIM_2, and never the turn, the winner or the angles |
| Turns.CheckFalls | Pygame_main.py:325-329 | the fall check; GAMEOVER exactly when the game was over or a top is below the screen, the turn kept, and nothing changed when no one fell |
| Turns.StepAngleInRange | Pygame_main.py:296-300 | one frame of the angle gauge keeps it within one step of [0, 180] |
| Turns.StepGaugeInRange | Pygame_main.py:308-313 | one frame of the bonus gauge keeps it within one step of [0, 200] |
| Turns.MoveEndsOnTimeout | Pygame_main.py:290-294 | MOVE gives way to AIM_1 exactly when now - timer > 5000, and the angle is reset to 45 |
| Turns.AimFireStartsBonusGauge | Pygame_main.py:258-266 | fire in AIM_1 goes to AIM_2 with timer = now, gauge 0, direction 1 and a target in range |
| Turns.BonusPhaseFires | Pygame_main.py:269-284 | AIM_2 goes to FIRE on the fire key, with the bonus decided by the gauge, or once now - timer > 3000, without bonus |
| Turns.FireEndsWhenProjectilesGone | Pygame_main.py:315-318 | FIRE gives way to the other player's MOVE exactly when no projectile is left |
| Turns.FallLoses | Pygame_main.py:325-329 | a player below the screen ends the game and the other one wins; with both below, player 0 is named |
| Turns.StepFollowsCycle | Pygame_main.py:251-353 | phases advance MOVE, AIM_1, AIM_2, FIRE, MOVE one at a time or jump to GAMEOVER, GAMEOVER is never left, and the turn changes only when FIRE ends |
| Turns.TickKeepsConsistent | Pygame_main.py:289-318 | the per-phase update keeps the invariant |
| Turns.CheckFallsKeepsConsistent | Pygame_main.py:325-329 | the fall check keeps the invariant |
| Turns.PressFireKeepsConsistent | Pygame_main.py:258-284 | a fire key press keeps the invariant |
| Turns.StepKeepsConsistent | Pygame_main.py:240-329 | every frame and every key press keeps the invariant |
| Turns.RunTurnParity | Pygame_main.py:348-353 | turns alternate: the player on turn is the first one moved on by the number of finished turns, modulo 2 |
| Turns.RunStaysConsistent | Pygame_main.py:240-329 | the invariant holds along every run |
| Turns.GameOverIsFinal | Pygame_main.py:325-329 | no run leaves GAMEOVER or changes the player on turn |
| Games.BothKeysCancel | Pygame_main.py:251-255 | holding both direction keys with room on both sides leaves the box in place, facing right |
| Games.WalkStaysOnScreen | Pygame_main.py:251-255 | walking for any number of events keeps the box on screen |
| Games.BeforeQuit | Pygame_main.py:242-245 | the processed events are the prefix before the first Quit |
| Games.BeforeQuitIsPrefix | Pygame_main.py:242-245 | the events up to the first Quit are exactly the ones BeforeQuit keeps |
| Games.Presses | Pygame_main.py:242-284 | a sequence of fire presses keeps the player on turn |
| Games.SurvivorsAlive | Pygame_main.py:157-159 | a projectile stays in the group exactly when its new state is alive, and the survivors are distinct |
| Games.FlightsEach | Pygame_main.py:137-146 | each projectile in the group took one flight step, and its trail stays capped and ends at its centre |
| Games.HitsInTurnEach | Pygame_main.py:149-155 | projectile k of the group hit exactly when its centre tile is earth after the craters of projectiles 0..k-1 are carved |
| Games.NoHitNoCraters | Pygame_main.py:152-155 | when no projectile of the group hits, no crater is carved |
| Games.SurvivorsInFlight | Pygame_main.py:137-159 | the projectiles left in the group are distinct, in flight and not hit |
| Games.FlyAll | Pygame_main.py:322 | each projectile, in order, takes one motion step (`Flights`) and hits exactly when its centre is on earth in the terrain as the earlier ones left it (`HitsInTurn`); the survivors are returned, and the terrain is carved by every hit in order |
| Games.FlyGroup | Pygame_main.py:322 | the group's flight step as FlyAll, including the in-order hit test, with each projectile's state before and after; the survivors are again distinct, in flight and not hit |
| Games.Game.constructor | Pygame_main.py:196-231 | the flat map, player 0 (keys A, D and Space, character 1) at (320, 360), player 1 (arrows and Return, character 2) at (960, 360), both new, distinct and facing right, no projectiles, and the initial machine |
| Games.Game.FireProjectile | Pygame_main.py:331-346 | enters FIRE and adds one new projectile launched from the shooter's centre at the mirrored angle, with the shooter's character and the bonus flag |
| Games.Game.NextTurn | Pygame_main.py:348-353 | the other player's MOVE, with timer = now |
| Games.Game.HandleEvent | Pygame_main.py:247-284 | one event: in MOVE the player walks by the held keys; the fire key goes down as a press; exactly one launched shot is added on fire in AIM_2 and none otherwise; in FIRE nothing changes |
| Games.Game.WalkHeld | Pygame_main.py:251-255 | `HeldMove`: a held left key tries a move by -5, then a held right key a move by +5, each made only when the box stays on screen (`MoveTo`); y and the angle are kept |
| Games.Game.StartGauge | Pygame_main.py:258-266 | fire in AIM_1 is `PressFire` on the machine |
| Games.Game.HandleEvents | Pygame_main.py:240-284 | processes the events before the first Quit and reports whether a Quit came; the machine is `Presses` over those events; the invariant is kept; a MOVE player walks once per event; when the events take the game into FIRE exactly one new projectile is appended, launched by the player on turn with the bonus flag, and otherwise the group is unchanged |
| Games.Game.HandleNext | Pygame_main.py:242-284 | one more event extends `Presses` and, in MOVE, the walk by one step, keeping the phase machine's invariant; the group has exactly one launched shot more than at the start once FIRE is entered, and is unchanged otherwise |
| Games.Game.UpdatePhase | Pygame_main.py:289-318 | the machine becomes `Tick`; no box moves; the terrain and the earlier projectiles' states are unchanged; one shot is launched exactly when AIM_2 times out |
| Games.Game.EndMove | Pygame_main.py:290-294 | MOVE in update is `Tick` on the machine |
| Games.Game.UpdateSetup | Pygame_main.py:289-300 | MOVE and AIM_1 in update are `Tick` on the machine and move no box |
| Games.Game.SwingAngle | Pygame_main.py:296-300 | AIM_1 in update is `Tick` on the machine |
| Games.Game.UpdateAim2 | Pygame_main.py:302-313 | AIM_2 in update is `Tick` on the machine; a shot without bonus is launched exactly when the time limit has passed |
| Games.Game.SwingGauge | Pygame_main.py:302-313 | AIM_2 before the time limit is `Tick` on the machine |
| Games.Game.UpdatePlayers | Pygame_main.py:321 | each player's top becomes `UpdateTop` over the current terrain; nothing else changes |
| Games.Game.UpdateProjectiles | Pygame_main.py:322 | every projectile in the group took one flight step, hitting exactly when its centre is on earth in the terrain as the earlier ones left it; the group keeps exactly the survivors, and the terrain is carved by every hit in order |
| Games.Game.CheckPlayerFalls | Pygame_main.py:325-329 | the machine becomes `CheckFalls` of the players' tops |
| Games.Game.UpdateShots | Pygame_main.py:322-329 | the projectile group's update (as UpdateProjectiles, hit test included) followed by the fall check |
| Games.Game.UpdateBodies | Pygame_main.py:321-329 | the players' physics, the projectile group's update with its in-order hit test, then the fall check |
| Games.Game.Update | Pygame_main.py:286-329 | the machine takes `Step` for the frame; each player's top becomes `UpdateTop` over the old terrain; every projectile in the group (including one just fired) took one flight step from its state, hitting exactly when its centre is on earth in the terrain as the earlier ones left it; the group keeps exactly the survivors, and the terrain is carved by every hit in order |

## Left out

- Rendering is not modelled: `Terrain.draw`, `Projectile.draw`, `Player.draw_aim_indicator`, `Game.draw`, colours, fonts and surfaces.
- The run loop and pygame I/O are not modelled: `Game.run`, `pygame.event.get`, `pygame.key.get_pressed`, `sys.exit` and `clock.tick`. A frame's events, the keys held during it and the clock reading `now` are parameters. A Quit stops the processing and is reported to the caller instead of exiting.
- The source reads `pygame.time.get_ticks()` afresh at each use: in AIM_1's fire handling for the timer and again for the target (lines 262 and 266), at the start of `update` (line 287), and in `next_turn` (line 352). The model takes one clock value `now` for a whole `HandleEvents` call and one for a whole `Update` call, so all readings within one call are equal here. Milliseconds that pass between two readings are not captured.
- The launch velocity `(8 cos a, -8 sin a)` is computed with trigonometry. It is the function parameter `launch` of the game.
- Floating point is modelled as exact reals. Rounding error is not captured, for example 8.05 for the bonus gauge's speed is exact here, while the float is 8.049999...
- Sprite groups are modelled as sequences. `kill()` clears the projectile's `alive` flag, and the group's update then keeps only the projectiles still alive.
- Players' rectangles hold integers, so their coordinates need no truncation. The only float Rect coordinates are those of the bonus target and indicator (`Turns.Trunc`).
- The features that exist only as TODOs are not modelled: knockback, the multi-shot volley, other map layouts and horizontal terrain collision.
- `print` calls are not modelled.
- `Game.current_player` is `players[turn]` rather than a separate field, and the winner is kept as a player index.
- Games.Game.Update: it does not restate the launch state of a shot fired by the AIM_2 timeout in the same frame (`Games.Game.UpdatePhase` states it). It keeps the phase machine's invariant only through `Turns.StepKeepsConsistent`.
- Games.Game.HandleEvent: the invariant of the phase machine is stated by `Games.Game.HandleEvents`, which calls it.
