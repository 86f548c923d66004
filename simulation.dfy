/** The whole session state as a value, and the specification of the tick, the
    key handler and the session reset on it. The class in module Game is proved
    to change its fields exactly as these functions say. */
module Simulation {
  import opened Entities
  import opened Formation
  import opened Projectiles
  import opened Collision

  datatype World = World(
    phase: Phase,
    score: int,
    level: int,
    enemies: seq<Enemy>,
    projectiles: seq<Projectile>,
    player: Position)

  /** Where the player starts: horizontally at mid-canvas, resting on the bottom edge. */
  function Home(): Position {
    Position(CANVAS_WIDTH / 2.0, CANVAS_HEIGHT - PLAYER_SIZE)
  }

  /** The state when the page loads, before the start button is clicked. */
  function Initial(): World {
    World(Start, 0, 1, [], [], Home())
  }

  /** The state the start button resets the session to. */
  function Restarted(): World {
    World(Playing, 0, 1, Grid(), [], Home())
  }

  /** The invariant the session keeps: a positive level, a non-negative score, the
      player inside the canvas, and, while playing, at least one enemy (the tick's
      seedless reduce over the enemies fails on an empty list). */
  predicate Valid(w: World) {
    w.level >= 1 && w.score >= 0 &&
    0.0 <= w.player.x <= CANVAS_WIDTH - PLAYER_SIZE &&
    (w.phase == Playing ==> w.enemies != [])
  }

  /** Enough random draws in [0, 1) for the wrap step of one tick. */
  predicate Ready(w: World, draws: seq<real>) {
    UnitDraws(draws) && |draws| >= |w.enemies| && |draws| >= FORMATION_SIZE
  }

  /** One tick: formation motion, projectile climb and expiry, collisions and
      scoring, wave clear, then the bottom-edge wrap. Nothing happens unless playing. */
  function Tick(w: World, draws: seq<real>): World
    requires w.phase == Playing ==> w.enemies != []
    requires Ready(w, draws)
  {
    if w.phase != Playing then w
    else
      var moved := Move(w.enemies, w.level);
      var ps := Advance(w.projectiles);
      var o := Collide(moved, ps, w.level, w.score);
      var cleared := o.survivors == [];
      var level := if cleared then w.level + 1 else w.level;
      var es := if cleared then Grid() else o.survivors;
      World(Playing, o.score, level, Wrap(es, draws), ps, w.player)
  }

  /** The safety property: a tick keeps the invariant, so every tick starts with at
      least one enemy; the phase and the player do not change. */
  lemma TickKeepsValid(w: World, draws: seq<real>)
    requires Valid(w) && Ready(w, draws)
    ensures Valid(Tick(w, draws))
    ensures Tick(w, draws).phase == w.phase && Tick(w, draws).player == w.player
  {
    if w.phase == Playing {
      var moved := Move(w.enemies, w.level);
      var ps := Advance(w.projectiles);
      CollideScoreGrows(moved, ps, w.level, w.score);
    }
  }

  /** A tick outside the playing phase changes nothing. */
  lemma TickIdle(w: World, draws: seq<real>)
    requires w.phase != Playing && Ready(w, draws)
    ensures Tick(w, draws) == w
  {
  }

  /** Scoring over a tick: the score grows by exactly Points(level) for each
      moved enemy that some climbed projectile hits, so it never decreases. */
  lemma TickScore(w: World, draws: seq<real>)
    requires Valid(w) && w.phase == Playing && Ready(w, draws)
    ensures Tick(w, draws).score ==
      w.score + Points(w.level) * HitCount(Move(w.enemies, w.level), Advance(w.projectiles))
    ensures Tick(w, draws).score >= w.score
  {
    CollideScoreGrows(Move(w.enemies, w.level), Advance(w.projectiles), w.level, w.score);
  }

  /** Level progression: the level grows by one exactly when every moved enemy is
      hit in this tick, and then the enemies are a fresh grid; otherwise it stays. */
  lemma TickLevel(w: World, draws: seq<real>)
    requires Valid(w) && w.phase == Playing && Ready(w, draws)
    ensures var moved := Move(w.enemies, w.level);
      var ps := Advance(w.projectiles);
      var cleared := forall i :: 0 <= i < |moved| ==> Hit(moved[i], ps);
      (cleared ==> Tick(w, draws).level == w.level + 1 && Tick(w, draws).enemies == Grid()) &&
      (!cleared ==> Tick(w, draws).level == w.level)
  {
    var moved := Move(w.enemies, w.level);
    var ps := Advance(w.projectiles);
    var o := Collide(moved, ps, w.level, w.score);
    if forall i :: 0 <= i < |moved| ==> Hit(moved[i], ps) {
      if o.survivors != [] {
        var e := o.survivors[0];
        CollideMembers(moved, ps, w.level, w.score, e);
      }
      WrapGrid(draws);
    } else {
      var i :| 0 <= i < |moved| && !Hit(moved[i], ps);
      CollideMembers(moved, ps, w.level, w.score, moved[i]);
    }
  }

  /** One move of the player to the left: max(0, x - PLAYER_STEP). */
  function StepLeft(x: real): (r: real)
    ensures r >= 0.0 && r >= x - PLAYER_STEP
    ensures r == 0.0 || r == x - PLAYER_STEP
  {
    if x - PLAYER_STEP > 0.0 then x - PLAYER_STEP else 0.0
  }

  /** One move of the player to the right: min(CANVAS_WIDTH - PLAYER_SIZE, x + PLAYER_STEP). */
  function StepRight(x: real): (r: real)
    ensures r <= CANVAS_WIDTH - PLAYER_SIZE && r <= x + PLAYER_STEP
    ensures r == CANVAS_WIDTH - PLAYER_SIZE || r == x + PLAYER_STEP
  {
    if x + PLAYER_STEP < CANVAS_WIDTH - PLAYER_SIZE then x + PLAYER_STEP else CANVAS_WIDTH - PLAYER_SIZE
  }

  /** The keydown handler: ignored unless playing; the arrows move the player,
      the space bar fires, every other key does nothing. */
  function OnKey(w: World, key: Key): World {
    if w.phase != Playing then w
    else match key
      case ArrowLeft => w.(player := w.player.(x := StepLeft(w.player.x)))
      case ArrowRight => w.(player := w.player.(x := StepRight(w.player.x)))
      case Space => w.(projectiles := w.projectiles + [Shot(w.player)])
      case OtherKey => w
  }

  /** A key keeps the invariant: outside the playing phase it changes nothing; the
      player stays inside the canvas, never changes height, and only the space bar
      adds a projectile, at the end; enemies, score, level and phase are untouched. */
  lemma OnKeyKeepsValid(w: World, key: Key)
    requires Valid(w)
    ensures w.phase != Playing ==> OnKey(w, key) == w
    ensures Valid(OnKey(w, key))
    ensures OnKey(w, key).player.y == w.player.y
    ensures OnKey(w, key).enemies == w.enemies && OnKey(w, key).score == w.score
    ensures OnKey(w, key).level == w.level && OnKey(w, key).phase == w.phase
    ensures OnKey(w, key).projectiles ==
      if w.phase == Playing && key == Space then w.projectiles + [Shot(w.player)] else w.projectiles
  {
  }

  /** The reset state and the page-load state satisfy the invariant, and the
      reset state holds a full grid. */
  lemma RestartedValid()
    ensures Valid(Restarted()) && Valid(Initial())
    ensures |Restarted().enemies| == ENEMY_ROWS * ENEMIES_PER_ROW
  {
  }
}
