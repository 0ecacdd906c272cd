# Space shooter: a verified model of the game view

This project models the game logic of the Arcade space shooter
(`Arcade/game.py`). The `SpaceShooter` view holds these parts:

- a player sprite;
- three lists of flying sprites (enemies, clouds, coins), all also kept in
  `all_sprites`;
- a pause flag;
- a score.

Three spawners, run on timers, add enemies, clouds and coins just right of
the screen. They draw positions and speeds at random and do nothing while
the game is paused.

Each frame (`on_update`) does nothing while paused. Otherwise it runs these
steps in order:

1. If the player touches an enemy, the game-over view is shown, carrying the
   current score.
2. If the player touches any coin, the score grows by one, and every touched
   coin leaves all lists.
3. Every sprite moves by its velocity. A flying sprite whose right edge is
   then left of the screen removes itself (`FlyingSprite.update`).
4. The player is clamped to the screen.

The keys work as follows:

- P toggles the pause.
- I/K/J/L and the arrow keys set one velocity axis of the player to ±5.
- Releasing a movement key zeroes its axis.
- In the game-over view, R starts a new game with score 0, unpaused.

The model is in four files:

- `geometry.dfy` (module `Geometry`): the screen size, sprite rectangles as
  values (`Entity`), one frame of motion (`Step`), the collision test, and
  the clamp to the screen.
- `seq_filter.dfy` (module `SeqFilter`): removal from a list by identity
  (`Without`), which is what `remove_from_sprite_lists` does to every list.
- `shooter_spec.dfy` (module `ShooterSpec`): the view as a value (`World`),
  with one function per handler:
  - `Tick` is `on_update`, also written as its four phases;
  - `Spawn` is the spawners;
  - `Press` and `Release` are the key handlers.

  `Run` applies any sequence of events. The lemmas state what holds over
  runs: the score never decreases, a paused game is frozen, and the player
  stays on screen.
- `shooter.dfy` (module `Shooter`): the view as the program runs it. `Sprite`
  objects are shared between the kind lists and `all_sprites`, and the
  `SpaceShooter` methods update them in place. Each handler method proves
  that `Model()` afterwards is the `ShooterSpec` function applied to
  `Model()` before. It also proves which sprite objects left which lists,
  and that the lists stay partitioned (`Valid`).

## Model

| member | source | states |
|---|---|---|
| Geometry.Step | Arcade/game.py:295 | one frame of `Sprite.update`: the box moves by its velocity; size and velocity are unchanged |
| Geometry.StepsDrift | Arcade/game.py:295 | `Step` applied n times moves a box by n times its velocity and keeps its size and velocity |
| Geometry.OverlapsSharedCell | Arcade/game.py:254 | the rectangle test `Overlaps` that stands for the collision test holds for two boxes of positive size exactly when some pixel cell lies inside both |
| Geometry.ClampAxis | Arcade/game.py:271-279 | the clamp of one axis: a negative start gives 0; a far edge past the limit gives `Max(0, limit - size)`, since the far edge is pulled back to the limit and then the near edge pushed up to 0; the result is never negative, it fits if the sprite fits, and an in-range position is kept |
| Geometry.ClampToScreen | Arcade/game.py:271-279 | per edge: left (bottom) below 0 gives 0; right (top) past 800 (600) gives `Max(0, 800 - width)` (`Max(0, 600 - height)`); an axis already in range is kept; the result is never negative and a sprite that fits is wholly on screen |
| Geometry.ClampIdempotent | Arcade/game.py:271-279 | clamping twice is the same as clamping once |
| SeqFilter.WithoutMembers | Arcade/game.py:263-264 | after removal by identity, a list keeps exactly the sprites not removed |
| SeqFilter.WithoutNothing | Arcade/game.py:263-264 | removing sprites that are not in a list leaves the list unchanged |
| SeqFilter.WithoutDistinct | Arcade/game.py:263-264 | removal never makes a sprite appear twice |
| SeqFilter.WithoutWithout | Arcade/game.py:263-264 | removing one set of sprites and then another is the same as removing both at once |
| ShooterSpec.Initial | Arcade/game.py:36-62 | the world after `setup`: unpaused, score 0, no flying sprites, a motionless player of the given size with left edge 10 and its centre at half the screen height (half a pixel lower for an odd height), on screen if it fits |
| ShooterSpec.CountHitsPositive | Arcade/game.py:254 | a collision list is non-empty exactly when it has at least one hit |
| ShooterSpec.Missed | Arcade/game.py:260-264 | the coins left after a pickup are exactly those the player does not touch; their number is the old count minus the hits |
| ShooterSpec.AdvanceSpec | Arcade/game.py:289-301 | a list after `update` holds the stepped sprites, minus those whose right edge is now below 0; a kept sprite is never off the left edge, and each one is the step of an old one |
| ShooterSpec.CoinsAfter | Arcade/game.py:260-269 | each coin after a frame is the step of an untouched old coin whose right edge is not below 0 (not yet past the left edge), and every such coin remains |
| ShooterSpec.Tick | Arcade/game.py:241-279 | a paused frame changes nothing; otherwise the score grows by 1 exactly when a coin is touched, the game-over score is the score before the coin pickup, the player is stepped then clamped, enemies and clouds are `Advance` of the old lists, and the coins are `Advance(Missed(player, coins))`: the untouched coins, stepped, whose right edge is not below 0 |
| ShooterSpec.EnemyCheck | Arcade/game.py:254-256 | an enemy collision records the game-over view with the current score; without one the world is unchanged; nothing but the game-over record ever changes |
| ShooterSpec.CoinPickup | Arcade/game.py:260-264 | the score grows by one exactly when the hit count is positive; the coins are `Missed(player, coins)`, the coins the player does not touch, so as many coins leave as are touched; nothing else changes |
| ShooterSpec.Move | Arcade/game.py:269 | the player takes one step; enemies, clouds and coins are `Advance` of the old lists, so no sprite left in them is off the left edge and no list grows; pause, score and game-over record are kept |
| ShooterSpec.KeepOnScreen | Arcade/game.py:271-279 | the player becomes `ClampToScreen` of the old player (with its per-edge results), so a player that fits ends on screen, one already on screen is not moved, and only the player changes |
| ShooterSpec.TickPhases | Arcade/game.py:252-279 | an unpaused frame is the enemy check, the coin pickup, the move and the clamp, in this order |
| ShooterSpec.CoinPickupScoresOnce | Arcade/game.py:260-264 | however many coins are touched, the frame adds exactly one point, and after the frame at most the old count minus the touched coins remain |
| ShooterSpec.Spawn | Arcade/game.py:79-149 | a paused spawner changes nothing; otherwise the new sprite is appended to its kind's list and nothing else changes |
| ShooterSpec.Press | Arcade/game.py:186-215 | P flips the pause; I/Up set the vertical speed to 5, K/Down to -5, J/Left the horizontal speed to -5, L/Right to 5; any other axis, the position and the rest of the world are kept |
| ShooterSpec.Release | Arcade/game.py:217-238 | a vertical key zeroes the vertical speed, a horizontal key zeroes the horizontal speed; nothing else changes |
| ShooterSpec.PauseTwice | Arcade/game.py:202-203 | pressing P twice gives back the same world |
| ShooterSpec.PressThenRelease | Arcade/game.py:186-238 | pressing and releasing a movement key stops motion on that axis only |
| ShooterSpec.ScoreNeverDecreases | Arcade/game.py:259-262 | over any run of events the score never decreases, and grows by at most one per frame |
| ShooterSpec.PausedIsFrozen | Arcade/game.py:249-251 | while paused, frames and spawner calls leave the world unchanged |
| ShooterSpec.InitialInvariant | Arcade/game.py:36-62 | the world after `setup` satisfies the invariant if the player fits on the screen |
| ShooterSpec.AdvanceKeeps | Arcade/game.py:289-301 | moving a list keeps its sprites flying left at their kind's speed |
| ShooterSpec.MissedKeeps | Arcade/game.py:260-264 | taking touched coins away keeps the invariant of the coin list |
| ShooterSpec.ApplyKeeps | Arcade/game.py:79-279 | every handler keeps the invariant, provided the spawners draw from their ranges |
| ShooterSpec.RunKeeps | Arcade/game.py:79-279 | after any run of events the player is on screen, and every flying sprite moves left at a speed its spawner can draw |
| Shooter.Sprite.Update | Arcade/game.py:295 | the sprite's state is `Step` of its old state |
| Shooter.CollidesWithList | Arcade/game.py:254 | the collision list holds exactly the sprites the player overlaps, and is non-empty exactly when some state in the list overlaps |
| Shooter.ValuesMissed | Arcade/game.py:263-264 | the states of the coin list after removing the touched coins are `Missed` of the old states |
| Shooter.ValuesAdvance | Arcade/game.py:269 | once every sprite has stepped and those off the left edge are gone, the remaining states are `Advance` of the old states |
| Shooter.PartitionedWithout | Arcade/game.py:263-264 | removing flying sprites from every list keeps the lists partitioned |
| Shooter.GameOverView.constructor | Arcade/game.py:304-306 | the game-over view carries the score it is given |
| Shooter.GameOverView.OnKeyPress | Arcade/game.py:340-344 | R (and only R) yields a new, set-up shooter view whose state is the initial world |
| Shooter.SpaceShooter.constructor | Arcade/game.py:23-62 | the new view is partitioned and its state is the initial world; `all_sprites` holds just the player |
| Shooter.SpaceShooter.AddEnemy | Arcade/game.py:79-100 | follows `Spawn` for an enemy; when not paused, one fresh sprite is appended to `enemies_list` and `all_sprites`, and the drawn values are in their ranges |
| Shooter.SpaceShooter.AddCloud | Arcade/game.py:102-124 | as for enemies, with cloud speeds |
| Shooter.SpaceShooter.AddCoin | Arcade/game.py:127-149 | as for enemies, with coin heights and speeds |
| Shooter.SpaceShooter.RemoveFromSpriteLists | Arcade/game.py:264 | the sprite leaves every list, and the other sprites keep their order |
| Shooter.SpaceShooter.UpdateSprite | Arcade/game.py:289-301 | the sprite steps, and it leaves every list exactly when it is flying and its right edge is below 0 |
| Shooter.SpaceShooter.UpdateSprites | Arcade/game.py:269 | every sprite present at the start steps once; exactly the flying ones now off the left edge leave the lists |
| Shooter.SpaceShooter.UpdateAll | Arcade/game.py:269 | the world moves as `Move` says, and the lists stay partitioned |
| Shooter.SpaceShooter.CollectCoins | Arcade/game.py:259-264 | the world changes as `CoinPickup` says; exactly the touched coins leave `coin_list` and `all_sprites`; the enemy and cloud lists are untouched |
| Shooter.SpaceShooter.TakeCoins | Arcade/game.py:260-264 | given the exact list of touched coins, the world changes as `CoinPickup` says and exactly those coins leave `coin_list` and `all_sprites` |
| Shooter.SpaceShooter.ScoreAndRemove | Arcade/game.py:262-264 | the score grows by one, and the given sprites leave every list |
| Shooter.SpaceShooter.RemoveEach | Arcade/game.py:263-264 | after removing each sprite of the list in turn, the lists have lost exactly those sprites |
| Shooter.SpaceShooter.KeepPlayerOnScreen | Arcade/game.py:271-279 | the four edge checks, in the source's order, leave the world as `KeepOnScreen` says |
| Shooter.SpaceShooter.ShowGameOver | Arcade/game.py:254-256 | a fresh game-over view carrying the current score is shown; nothing else changes |
| Shooter.SpaceShooter.OnUpdate | Arcade/game.py:241-279 | the new state is `Tick` of the old one; a paused frame changes no object; the removed sprites are flying sprites from `all_sprites` and have left every list |
| Shooter.SpaceShooter.Frame | Arcade/game.py:254-279 | an unpaused frame, as the four phases in order, is `Tick` |
| Shooter.SpaceShooter.OnKeyPress | Arcade/game.py:186-215 | the new state is `Press` of the old one, and no list changes |
| Shooter.SpaceShooter.OnKeyRelease | Arcade/game.py:217-238 | the new state is `Release` of the old one |

## Left out

- Drawing: `on_draw`, the score text, fonts, the background colour, and the
  game-over texts.
- Timer scheduling (`arcade.schedule`) and `delta_time`. The spawners are
  methods that the environment may call at any point; `Run` interleaves
  them freely with frames and key events.
- `random.randint`. The drawn values are parameters, and the spawners'
  preconditions require them to lie in the drawn ranges.
- Texture sizes. Sprite sizes are parameters, and positions and velocities
  are integers rather than floats.
- Setup places the player's centre at half the screen height, which puts
  the bottom edge on a half pixel when the player's height is odd. The model
  rounds that bottom edge down by half a pixel.
- Hit boxes. `collides_with_list` uses the library's hit-box polygons; the
  model uses intersection of bounding rectangles.
- Q and `arcade.close_window`, in both views. Q is an ordinary key with no
  effect here.
- The `game_over` flag. It is set to `False` in setup and never set again,
  because the assignment after the enemy collision is commented out. The
  coin branch's `not self.game_over` test is therefore always true, and the
  model omits the flag.
- The window's dispatch to the new view after `show_view`. The model records
  the shown view in `gameOverView`, and this view's handlers stay callable.
- `collides_with_list` is called twice on the coin list in the source, with
  the same answer both times. The model calls it once.
- `all_sprites.update()` removes sprites from the list while iterating over
  it. This depends on the library's iteration. The model updates every
  sprite present at the start of the frame once, in order. If the library
  walks the live list, the sprite right after a despawned one is skipped for
  that frame; the model moves it, so for that sprite the per-frame step
  stated by `UpdateSprites` can differ from the program.
- Hit boxes of zero width or height: `Overlaps` can hold for them although
  they cover no pixel cell, so `OverlapsSharedCell` states the cell only for
  boxes of positive size.
- Shooter.SpaceShooter.OnUpdate: for an unpaused frame, `removed` is stated
  to hold only flying sprites of the old `all_sprites`, not exactly the
  touched coins plus the despawned sprites. `CollectCoins` and
  `UpdateSprites` state those sets exactly. The states of what remains are
  fixed by `Model() == Tick(old(Model()))`.
- Shooter.SpaceShooter.Frame: the same one-way statement about `removed`.
- Geometry.StepsDrift: is stated of `Step` applied n times, not of n frames of `Tick`; no lemma follows one surviving sprite through n unpaused frames, where the player is also clamped.
