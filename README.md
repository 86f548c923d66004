# Space shooter simulation in Dafny

This project models the game simulation of a small browser space shooter
(`index.js`). The player's ship fires projectiles upward at a grid of enemies.
On each animation frame the game moves the formation sideways, with a wall test
and a drop. It climbs and expires projectiles, removes the enemies a projectile
is close to, and scores 10 points times the level for each one. When a wave is
cleared, it raises the level and builds a fresh 4 × 8 grid. Enemies that reach
the bottom edge wrap back to the top at a random x. The model also covers the
arrow and space keys and the reset performed by the start button.

Layout, one module per component:

- `entities.dfy` (`Entities`): the constants (ratio 2, an 800 × 800 canvas,
  player size 40, enemy size 30, 4 rows of 8 enemies) and the values: `Enemy`,
  `Projectile`, `Position`, `Phase` (`Start`/`Playing`) and `Key`; and
  `Embeds`, the subsequence relation the order lemmas use.
- `formation.dfy` (`Formation`): the grid generator, the two seedless `reduce`
  calls (`Leftmost`, `Rightmost`), the wall test, the rigid per-tick motion
  `Move` and the bottom-edge `Wrap`.
- `projectiles.dfy` (`Projectiles`): the shot, the per-tick `Advance` filter
  and its iterate `AdvanceTimes`.
- `collision.dfy` (`Collision`): the proximity test, and `Collide`, the filter
  that removes hit enemies and adds their points.
- `simulation.dfy` (`Simulation`): the session state as a value `World`, plus
  the functions that define one tick (`Tick`), the key handler (`OnKey`) and
  the reset (`Restarted`). It also holds the invariant `Valid`: while playing there
  is at least one enemy, which is what makes the tick's seedless `reduce` safe.
- `game.dfy` (`Game`): the module-level variables of `index.js` as the fields
  of class `Game`. Its methods update the fields in place with loops, in the
  order the source uses. Each method is proved to change the fields exactly as
  the matching specification function says (`Grid`, `Shot`, `Shift`, `Move`,
  `Advance`, `Collide`, `Wrap`, `Tick`, `OnKey`, `Restarted`).

Modelling choices:

- Coordinates are exact `real` numbers. The sideways distance
  `ratio * (0.5 + level * 0.1)` is named `Drift(level)`.
- The tick's `Math.random()` calls become a parameter `draws`, a sequence of
  values in [0, 1). The enemy at position i after collisions uses `draws[i]`.
  The values are otherwise arbitrary, so this admits exactly the outcomes of
  drawing one value per wrapped enemy.
- `enemyDirection` is a local of the tick, reset to `+ratio` on every tick
  (index.js:86), so the formation keeps no direction from one tick to the next:
  the wall test only decides the direction of the current move. Two proved
  consequences:
  - `LeftWallPersists`: when an enemy is at or past the left wall, the next
    move takes every enemy further left, and the wall test fires again on the
    move after.
  - `RightWallJitter`: a formation that reaches the right wall by less than one
    drift, with its leftmost enemy more than one drift from the left wall, is
    back at the same x after two formation moves, one drop lower, instead of
    travelling left. In a real tick, collisions and the wrap run between the two
    moves; the lemma is about the formation motion alone.
- The `reduce` calls without a seed at index.js:87-88 throw on an empty array,
  so `Move` requires a non-empty formation, and `TickKeepsValid` proves that no
  tick leaves the formation empty while playing.
- `Math.random() * (W - enemySize)` (index.js:125) gives a wrapped x in
  [0, W - enemySize), never W - enemySize itself.

## Model

| member | source | states |
|---|---|---|
| `Formation.GridEnemy` | index.js:63-68 | the enemy of cell (row, col) carries that row and col and lies inside [0, W - enemySize] on both axes |
| `Formation.Grid` | index.js:59-71 | a fresh formation has exactly 4 * 8 enemies; the enemy at index i is the one of cell (row, col) with i = row * 8 + col, so the layout is row-major |
| `Formation.GridAt` | index.js:61-69 | the cell (row, col) is found at index row * 8 + col of the fresh grid |
| `Formation.Leftmost` | index.js:87 | the enemy the min-reduce selects has the least x of all, and every earlier enemy has a strictly greater x (the reduce keeps the first minimum) |
| `Formation.Rightmost` | index.js:88 | the enemy the max-reduce selects has the greatest x of all, and every earlier enemy has a strictly smaller x |
| `Formation.AtWallIff` | index.js:87-90 | the wall test on leftmost and rightmost fires exactly when some enemy has x <= 0 or x >= W - enemySize |
| `Formation.Drift` | index.js:96 | the sideways distance ratio * (0.5 + level * 0.1) is at least 1.2 from level 1 on |
| `Formation.Move` | index.js:86-97 | the formation move: the wall test on the seedless reduces before moving picks the direction, a wall hit also drops every enemy by 5 * ratio, and every enemy then moves sideways by the same drift; its properties are stated by `MoveRigid`, `LeftWallPersists` and `RightWallJitter`, and `Game.MoveFormation` is proved equal to it |
| `Formation.MoveRigid` | index.js:86-97 | every enemy's x changes by the same delta, -Drift(level) when some enemy is at a wall and +Drift(level) otherwise; at a wall every y grows by 5 * ratio, otherwise y is unchanged; count, rows and columns are kept |
| `Formation.LeftWallPersists` | index.js:86-97 | with the direction reset every tick, a formation with its leftmost enemy at x <= 0 moves every enemy further left on its next move, and the wall test fires again on the moved formation |
| `Formation.RightWallJitter` | index.js:86-97 | a formation whose rightmost enemy is at or past W - enemySize by less than one drift, and whose leftmost enemy is more than one drift from the left wall, is after two formation moves back at the same x for every enemy and one drop lower |
| `Formation.Wrap` | index.js:122-127 | an enemy whose bottom edge reached H gets y = 0 and an x in [0, W - enemySize); every other enemy is unchanged; afterwards no enemy reaches the bottom |
| `Formation.WrapGrid` | index.js:116-127 | the wrap leaves a freshly generated grid as it is |
| `Projectiles.Shot` | index.js:73-77 | the new projectile is at the player's y and equidistant from the player's left and right edges; from a player inside the canvas it starts strictly inside the canvas |
| `Projectiles.Advance` | index.js:99-102 | the number of kept projectiles is exactly the number of inputs whose climbed y is > 0, and every kept projectile is above the top edge; with `AdvanceInOrder` this fixes the result as those climbed projectiles in their order, duplicates included |
| `Projectiles.AdvanceMembers` | index.js:99-102 | a projectile is kept exactly when it is some input projectile moved up by 5 * ratio whose new y is > 0 |
| `Projectiles.AdvanceInOrder` | index.js:99-102 | the kept projectiles are a subsequence, in the original order, of the moved projectiles |
| `Projectiles.Expiry` | index.js:99-102 | a lone projectile fired at y0 > 0 is alive after n ticks, at y0 - n * 5 * ratio, exactly when that is > 0, and gone otherwise |
| `Collision.Collide` | index.js:104-114 | the survivors number the enemies minus the hit ones, and the score grows by exactly 10 * level per hit enemy |
| `Collision.CollideMembers` | index.js:104-109 | an enemy survives exactly when no projectile is within enemySize of it on both axes (strict test) |
| `Collision.CollideInOrder` | index.js:104-114 | the survivors keep their relative order (a subsequence of the enemies) |
| `Collision.CollideNoHit` | index.js:104-114 | when no enemy is hit, every enemy survives in place and the score is unchanged |
| `Collision.CollideScoreGrows` | index.js:110 | at a positive level, collision resolution never lowers the score |
| `Simulation.Tick` | index.js:81-128 | one tick: nothing unless playing; otherwise formation move, projectile climb and expiry, collisions and scoring, a level-up and fresh grid on an empty formation, then the wrap, with phase and player unchanged; its properties are stated by `TickKeepsValid`, `TickIdle`, `TickScore` and `TickLevel`, and `Game.UpdateGame` is proved equal to it |
| `Simulation.TickKeepsValid` | index.js:81-128 | a tick keeps the level >= 1, the score >= 0 and the player in bounds, and while playing it leaves at least one enemy, so the next tick's reduce has an element; phase and player are unchanged |
| `Simulation.TickIdle` | index.js:82 | a tick outside the playing phase changes nothing |
| `Simulation.TickScore` | index.js:104-114 | over a tick the score grows by exactly 10 * level times the number of moved enemies hit by a climbed projectile, so it never decreases |
| `Simulation.TickLevel` | index.js:116-120 | the level grows by exactly one when every enemy is hit in the tick, and the enemies are then the fresh grid; otherwise the level is unchanged |
| `Simulation.StepLeft` | index.js:190-192 | a left move gives max(0, x - 10 * ratio) |
| `Simulation.StepRight` | index.js:193-195 | a right move gives min(W - playerSize, x + 10 * ratio) |
| `Simulation.OnKey` | index.js:187-200 | the keydown handler: ignored unless playing; the arrows clamp the player's x through `StepLeft`/`StepRight`, space appends `Shot` of the player, any other key does nothing; its properties are stated by `OnKeyKeepsValid`, and `Game.HandleKey` is proved equal to it |
| `Simulation.OnKeyKeepsValid` | index.js:187-200 | outside the playing phase a key changes nothing; the player stays within [0, W - playerSize] and never changes height; only space adds a projectile, at the end; enemies, score, level and phase are untouched |
| `Simulation.Initial` | index.js:31-36 | the page-load state: start phase, score 0, level 1, no enemies or projectiles, the player at (W / 2, H - playerSize); `RestartedValid` proves it valid and the `Game` constructor is proved equal to it |
| `Simulation.Restarted` | index.js:171-177 | the reset state: playing, score 0, level 1, the fresh grid, no projectiles, the player at the start position; `RestartedValid` proves it valid and `Game.Initialize` is proved equal to it |
| `Simulation.RestartedValid` | index.js:171-177 | the reset state (score 0, level 1, no projectiles, player at the start position, full grid) and the page-load state satisfy the invariant; the reset grid has 32 enemies |
| `Game.AnyHit` | index.js:105-108 | the `some` loop answers exactly whether some projectile passes the proximity test |
| `Game.Game.constructor` | index.js:31-36 | the page-load state: start phase, score 0, level 1, no enemies, no projectiles, player at (W / 2, H - playerSize) |
| `Game.Game.CreateEnemyFormation` | index.js:59-71 | the nested loops leave the enemies equal to the fresh grid and change nothing else |
| `Game.Game.ShootProjectile` | index.js:73-77 | exactly one projectile, the shot from the player, is appended and earlier projectiles are unchanged |
| `Game.Game.HandleKey` | index.js:187-200 | the handler changes the state as `OnKey` says and keeps the invariant |
| `Game.Game.MoveFormation` | index.js:86-97 | the two `forEach` passes leave the enemies as `Move` of the old enemies at the current level |
| `Game.Game.ShiftAll` | index.js:92-97 | one pass over the enemies adds the same (dx, dy) to every position and changes nothing else |
| `Game.Game.AdvanceProjectiles` | index.js:99-102 | the filter loop leaves the projectiles as `Advance` of the old ones |
| `Game.Game.ResolveCollisions` | index.js:104-114 | the filter loop leaves the survivors and the score that `Collide` gives, and changes nothing else |
| `Game.Game.WrapEnemies` | index.js:122-127 | the loop leaves the enemies as `Wrap` of the old ones |
| `Game.Game.UpdateGame` | index.js:81-128 | one tick changes the fields as `Tick` says and keeps the invariant, so the seedless reduce never meets an empty list |
| `Game.Game.Initialize` | index.js:171-177 | after the reset the state is the reset state, whatever it was before; resetting twice gives the same state as once |
| `Game.Game.StartSession` | index.js:169-183 | the start button resets the session and runs the first tick |

## Left out

- Rendering (`drawGame`, index.js:134-167, and the call at index.js:203): canvas output with no effect on the state.
- Audio (index.js:1-10, 78, 111, 119, 170, 180-181): calls into a sound module that is not part of this model. The model assumes every audio call returns normally. In the source a rejected `audioContext.resume()` (index.js:170) would leave the session in `start`, and a throwing `playSound` inside the collision filter (index.js:111) would end the tick with the score already raised (index.js:110) and the enemies not yet filtered.
- The star field (`createStars`, `updateStars`, index.js:39-57, 84, 176): cosmetic and driven by random speeds; it never affects gameplay.
- DOM wiring: element lookups and canvas sizing (index.js:11-14, 22-23), the score text (index.js:130), hiding the start button (index.js:178), listener registration (index.js:185) and `preventDefault` (index.js:197).
- `requestAnimationFrame` scheduling (index.js:131), and the extra update chain that a second click on the start button would launch. These are scheduling, not state logic. A tick is a call of `UpdateGame`.
- `projectileSize` (index.js:27): it is used only by the drawing code.
- IEEE-754 rounding: positions and speeds are exact reals.
- The concrete values of `Math.random()` (index.js:125): each is an arbitrary value in [0, 1), supplied through `draws`.
- Score and level are unbounded integers. JavaScript numbers lose precision only far beyond any reachable score.
