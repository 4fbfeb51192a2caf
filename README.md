# Zombies and Momias: a model of the game core

`main.js` is a small canvas shooting game. Enemies of two kinds appear on a
W×H canvas:

- zombies walk in a straight line and bounce off the edges;
- momias (mummies) circle around a centre that now and then moves.

Both kinds sometimes vanish for a moment and then respawn somewhere else. A
click shoots the topmost enemy under the pointer. A zombie is worth 10
points and a momia 15. A frame loop advances every enemy by the elapsed time,
capped at 0.05 s.

Buttons start, pause and reset the game. Reset stops the game, zeroes the
score and spawns eight fresh enemies.

The project has four modules:

- `GameMath` (`game_math.dfy`) holds the canvas dimensions and the numeric
  helpers (`rand`, `distance`, `Math.max`, `Math.min`, `Math.floor`).
  - Numbers are reals.
  - The canvas sides are fixed but arbitrary constants, greater than 200.
  - A `Math.random()` draw is a parameter in [0, 1).
- `EnemyModel` (`enemy_model.dfy`) describes an enemy as a value,
  `EnemyState`. Pure functions describe `reset`, `update`,
  `hideTemporarily`, `onShot` and `isHit`. Lemmas state what each of them
  promises, and that `update` and `onShot` keep the invariant `Wellformed`.
- `Enemies` (`enemy.dfy`) holds `class Enemy`, whose methods update its
  fields in place. Each method is proved to produce exactly the state the
  matching `EnemyModel` function computes.
- `Session` (`session.dfy`) holds the module-level game state (`running`,
  `score`, `lastTime`, `enemies`) as `class Game`, with `populateEnemies`,
  `loop`, `update`, `canvasClick`, `startGame`, `pauseGame` and `resetGame`.
  - `HighestHit` is the reference definition of the enemy a click shoots.
  - `FrameDelta` is the reference definition of the `dt` of one frame.

Randomness enters through records of draws: `ResetDraws`, `TickDraws`,
`OrbitDraws` and `SpawnDraws`. Each record holds what one call may consume.
`Math.cos` and `Math.sin` of a random angle likewise become given values
in [-1, 1].

## Model

| member | source | states |
|---|---|---|
| GameMath.Rand | main.js:40-42 | `rand(lo, hi)` lies in [lo, hi], and strictly below hi when the range is non-empty |
| GameMath.RandOnto | main.js:40-42 | every value of [lo, hi) is produced by some draw in [0, 1) |
| GameMath.Max | main.js:145 | `Math.max` is an upper bound of both arguments and equals one of them |
| GameMath.Min | main.js:175 | `Math.min` is a lower bound of both arguments and equals one of them |
| GameMath.DistanceSquared | main.js:44-47 | the squared distance is never negative, and is zero between a point and itself |
| GameMath.SquareCompare | main.js:46 | comparing a non-negative square root with a radius is the same as comparing the square with the radius squared, boundary included |
| GameMath.SizeDraw | main.js:55 | `Math.floor(rand(50, 90))` is an integer in [50, 89] |
| EnemyModel.Component | main.js:73-74 | a cosine or sine times a non-negative length lies within ±length |
| EnemyModel.HitRadius | main.js:145-146 | the hitbox radius is `max(size/2, 20) * 0.75`: at least 15 and at least three eighths of the size, and equal to one of the two |
| EnemyModel.IsHit | main.js:142-147 | `isHit(mx, my)`: the hit test compared through squares; its meaning is stated by HitIffWithinRadius, CentreIsHit and OnShotHides |
| EnemyModel.HitIffWithinRadius | main.js:142-147 | a hidden enemy is never hit; a shown one is hit exactly when the click's Euclidean distance is at most `max(size/2, 20) * 0.75` |
| EnemyModel.CentreIsHit | main.js:142-147 | a click on a shown enemy's own position hits it |
| EnemyModel.Reset | main.js:63-88 | `reset()` as a function of the old state and the draws; what it promises is stated by ResetSpawns |
| EnemyModel.ResetSpawns | main.js:63-88 | `reset()` shows the enemy with a zero timer and keeps its kind and size; the spawn point lies in [50, W-50) × [50, H-50); a zombie's velocity components are within ±2; a momia's centre is inset by 100px, its radius in [30, 90), its angular speed's magnitude in [0.01, 0.05) and its angle in [0, 2π) |
| EnemyModel.SignedSpeed | main.js:81 | a random speed with a random sign has its magnitude in [0.01, max) |
| EnemyModel.Fresh | main.js:52-61 | the state `new Enemy(type)` builds: a size draw, then `reset()`; stated by FreshIsWellformed and met by Enemies.Enemy.constructor |
| EnemyModel.FreshIsWellformed | main.js:52-61 | a new enemy is wellformed, shown, of the requested kind, sized in [50, 89] and placed inside the spawn rectangle |
| EnemyModel.HideTemporarily | main.js:126-129 | `hideTemporarily()` as a function; stated by HideTemporarilyHides |
| EnemyModel.HideTemporarilyHides | main.js:126-129 | `hideTemporarily()` hides the enemy for a time in [0.8, 2.5) and changes no other field |
| EnemyModel.OnShot | main.js:149-155 | `onShot()` as a function; stated by OnShotHides and OnShotKeepsWellformed |
| EnemyModel.OnShotHides | main.js:149-155 | `onShot()` hides the enemy for a time in [0.6, 2.0), changes no other field, and leaves it unhittable even at its own position |
| EnemyModel.Update | main.js:90-124 | `update(dt)`: the hidden, zombie or momia branch by visibility and kind; stated by HiddenUpdate, ZombieUpdate, MomiaUpdate and UpdateKeepsWellformed |
| EnemyModel.CountDown | main.js:91-96 | the hidden branch of `update(dt)`; stated by HiddenUpdate, StaysHidden and ComesBack |
| EnemyModel.Walk | main.js:98-107 | the zombie branch of `update(dt)`; stated by ZombieUpdate and BounceOffLeftEdge |
| EnemyModel.Circle | main.js:108-123 | the momia branch of `update(dt)`; stated by MomiaUpdate |
| EnemyModel.HiddenUpdate | main.js:91-96 | a hidden enemy's timer drops by dt and nothing else changes while the timer stays positive; once it reaches zero or less the enemy respawns, shown, inside the spawn rectangle |
| EnemyModel.ZombieUpdate | main.js:98-107 | a shown zombie moves by `v*dt*60/16` on each axis; each velocity component is negated exactly when the new coordinate is within 10px of an edge or beyond it, and keeps its magnitude; the zombie hides exactly when the hide roll is under 0.0008 |
| EnemyModel.MomiaUpdate | main.js:108-123 | a shown momia's angle advances by `angularSpeed*dt*60/16` and its position lies inside the bounding square of the orbit it had at the start of the tick; the orbit is redrawn only on a re-centre roll under 0.001 (centre inset by 100px, radius in [30, 110), speed magnitude in [0.01, 0.06)) and is otherwise kept; it hides exactly when the hide roll is under 0.0006 |
| EnemyModel.BounceOffLeftEdge | main.js:103 | a zombie at x = 5 moving left moves right after a tick of non-negative length |
| EnemyModel.StaysHidden | main.js:91-95 | over a run of frames whose time elapsed stays below a hidden enemy's timer after every frame, the enemy stays hidden and in place, and its timer has dropped by exactly the time elapsed |
| EnemyModel.ComesBack | main.js:91-95 | on the frame where the time elapsed first reaches a hidden enemy's timer, it comes back shown, with a zero timer, inside the spawn rectangle, with its kind and size |
| EnemyModel.ShotThenRespawn | main.js:149-155 | after `onShot()`, the enemy stays hidden on every frame before the frames' time reaches its timer, and on the frame where it does it is back, shown, inside the spawn rectangle, with its kind and size |
| EnemyModel.UpdateKeepsWellformed | main.js:90-124 | every tick of non-negative length keeps an enemy wellformed (size, timer and motion ranges) |
| EnemyModel.OnShotKeepsWellformed | main.js:149-155 | a shot keeps an enemy wellformed |
| Enemies.Enemy.constructor | main.js:52-61 | `new Enemy(type)` builds exactly the state `Fresh` describes: a size draw, then `reset()`, then shown with a zero timer |
| Enemies.Enemy.Reset | main.js:63-88 | the in-place `reset()` leaves the fields equal to `EnemyModel.Reset` of the old fields |
| Enemies.Enemy.Update | main.js:90-124 | the in-place `update(dt)` leaves the fields equal to `EnemyModel.Update` of the old fields |
| Enemies.Enemy.CountDown | main.js:91-96 | the hidden branch of `update(dt)` in place equals `EnemyModel.CountDown` |
| Enemies.Enemy.Walk | main.js:98-107 | the zombie branch of `update(dt)` in place equals `EnemyModel.Walk` |
| Enemies.Enemy.Circle | main.js:108-123 | the momia branch of `update(dt)` in place equals `EnemyModel.Circle` |
| Enemies.Enemy.IsHit | main.js:142-147 | `isHit(mx, my)` on the object: EnemyModel.IsHit of its fields |
| Enemies.Enemy.HideTemporarily | main.js:126-129 | the in-place `hideTemporarily()` equals `EnemyModel.HideTemporarily` |
| Enemies.Enemy.OnShot | main.js:149-155 | the in-place `onShot()` equals `EnemyModel.OnShot` |
| Session.HighestHit | main.js:205-217 | the enemy a click shoots is a hit one with no hit enemy above it; when there is none, no enemy is hit |
| Session.HighestHitUnique | main.js:207-216 | any hit index with no hit index above it is the one HighestHit returns |
| Session.CentreClickShoots | main.js:207-215 | a click on a shown enemy's position, with no hit enemy above it, selects that enemy |
| Session.KindDraw | main.js:165 | the kind roll: a zombie when the draw is under 0.55, a momia otherwise; used by PopulateEnemies |
| Session.Points | main.js:213 | 10 points for a zombie, 15 for a momia; used by Click, Shoot and ClickOnEnemy |
| Session.NoReference | main.js:174 | `!lastTime`: no reference when `lastTime` is `null` or 0; used by FrameDelta |
| Session.FrameDelta | main.js:174-175 | dt is never above 0.05 and is 0 on a frame with no reference; with a reference, dt is elapsed/1000 when at most 50 ms have elapsed, 0.05 when 50 ms or more have elapsed, and non-negative when time did not go backwards |
| Session.LongFrameIsCapped | main.js:175 | a frame a second after the previous one simulates only 0.05 s |
| Session.Game.constructor | main.js:23-25 | the game starts stopped, with score 0, no frame reference and no enemies |
| Session.Game.PopulateEnemies | main.js:161-168 | the enemy list becomes `count` new enemies; enemy i has kind Zombie exactly when its kind roll is under 0.55, and the state `Fresh` describes; the rest of the game is unchanged |
| Session.Game.Update | main.js:184-187 | every enemy's new state is `EnemyModel.Update` of its old one, with the same dt |
| Session.Game.Loop | main.js:172-182 | a stopped game is unchanged; a running one records the timestamp and advances every enemy by `FrameDelta` of the old reference |
| Session.Game.Click | main.js:198-217 | a stopped game is unchanged; in a running one, exactly the enemy `HighestHit` names is shot, the score rises by that enemy's points (nothing when none is hit), every other enemy is untouched, and the result says whether anything was hit |
| Session.Game.FindHit | main.js:205-217 | the downward scan that breaks at the first hit finds exactly `HighestHit` of the enemies' states |
| Session.Game.Shoot | main.js:209-215 | the hit branch shoots enemy i, adds its kind's points and leaves every other enemy as it was |
| Session.Game.ClickOnEnemy | main.js:198-217 | a click in a running game on a shown enemy's position, with no hit enemy above it, reports a hit, hides that enemy and raises the score by 10 for a zombie or 15 for a momia |
| Session.Game.StartGame | main.js:234-243 | afterwards the game runs and keeps its invariant; a stopped game drops its frame reference, a running one keeps it; score and enemies are unchanged, so starting twice is the same as starting once |
| Session.Game.PauseGame | main.js:245-251 | afterwards the game is stopped and keeps its invariant, with score, enemies and frame reference unchanged, so pausing twice is the same as pausing once |
| Session.Game.ResetGame | main.js:253-264 | from any state: stopped, score 0, and eight fresh enemies drawn as `populateEnemies(8)` draws them |

## Left out

- Drawing: `render`, `Enemy.draw`, the images and `alpha` are not modelled. `alpha` is always 1 and only drawing reads it.
- Audio: the background music and the shot sound are not modelled. They produce no state the game reads.
- The DOM: `showMessage`, `updateScore`, the score element, `init`, `afterLoad`, `loadImage` and `window._game` are not modelled. The only state change `afterLoad` makes is `populateEnemies(8)`, which is modelled.
- The button handlers are not modelled. The pause button starts a stopped game and pauses a running one. Both of these operations are modelled.
- `requestAnimationFrame`, `cancelAnimationFrame` and `animationId` are not modelled. The scheduling of frames is outside the model: `Loop` is one frame.
- The click's conversion from client to canvas coordinates is not modelled. `Click` receives canvas coordinates (mx, my).
- Numbers are exact reals, not IEEE doubles. Rounding is not modelled.
- `Math.sqrt` is replaced by comparing squares. `SquareCompare` shows the two agree for a distance against a radius.
- `Math.cos` and `Math.sin` are given values in [-1, 1]. The identity cos² + sin² = 1 is not used.
- The probabilities of the random events are not modelled. Only the thresholds the draws are compared with are.
- `populateEnemies`' default count of 7 is not modelled. Every call in main.js passes 8.
- Fields a kind never sets stay undefined in the game. In the model they are 0.0, and no code path of either kind reads them.
- EnemyModel.ResetSpawns: it bounds a zombie's velocity components by ±2 each. It does not state that the speed √(vx² + vy²) is exactly the drawn value in [0.6, 2.0), because that needs cos² + sin² = 1.
- EnemyModel.MomiaUpdate: it places the momia within the bounding square of the orbit it had at the start of the tick. It does not state that the momia is on that circle, for the same reason.
- GameMath.DistanceSquared: it states that the distance is zero between equal points. It does not state the converse, that a zero distance means equal points.
- EnemyModel.UpdateKeepsWellformed: it needs dt ≥ 0. A negative dt would come from a timestamp earlier than the previous one, and could raise a hidden enemy's timer above its range.
- Session.Game.Loop: main.js tests `lastTime` for truthiness. So a previous timestamp of exactly 0 counts as no reference and gives dt = 0. The model keeps this as written (`NoReference`).
- Session.Game.Valid: the game's invariant covers the score, the distinctness of the enemy objects and the size ranges. The per-enemy `Wellformed` invariant is proved on values (`UpdateKeepsWellformed`, `OnShotKeepsWellformed`, `FreshIsWellformed`), not carried in `Valid`.
