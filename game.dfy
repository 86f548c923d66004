/** The game as the page runs it: the session variables as the fields of one
    object, updated in place by the tick, the key handler and the start button.
    Each method is proved to change the fields exactly as the matching
    specification function says. */
module Game {
  import opened Entities
  import opened Formation
  import opened Projectiles
  import opened Collision
  import opened Simulation

  /** `projectiles.some(...)`: does any projectile pass the proximity test against `e`?
      Stops at the first one that does. */
  method AnyHit(e: Enemy, ps: seq<Projectile>) returns (hit: bool)
    ensures hit == Hit(e, ps)
  {
    hit := false;
    var i := 0;
    while i < |ps| && !hit
      invariant 0 <= i <= |ps|
      invariant hit <==> exists j :: 0 <= j < i && Near(e, ps[j])
    {
      hit := Abs(e.x - ps[i].x) < ENEMY_SIZE && Abs(e.y - ps[i].y) < ENEMY_SIZE;
      i := i + 1;
    }
  }

  class Game {
    var phase: Phase
    var score: int
    var level: int
    var enemies: seq<Enemy>
    var projectiles: seq<Projectile>
    var player: Position

    /** The fields as one value. */
    function State(): World
      reads this
    {
      World(phase, score, level, enemies, projectiles, player)
    }

    /** The session variables as the page loads. */
    constructor ()
      ensures State() == Initial() && Valid(State())
    {
      phase := Start;
      score := 0;
      level := 1;
      enemies := [];
      projectiles := [];
      player := Position(CANVAS_WIDTH / 2.0, CANVAS_HEIGHT - PLAYER_SIZE);
    }

    /** Replaces the enemies by a fresh grid, built row by row, column by column. */
    method CreateEnemyFormation()
      modifies this
      ensures State() == old(State()).(enemies := Grid())
    {
      enemies := [];
      var row := 0;
      while row < ENEMY_ROWS
        invariant 0 <= row <= ENEMY_ROWS
        invariant enemies == Grid()[..row * ENEMIES_PER_ROW]
        invariant State() == old(State()).(enemies := enemies)
      {
        var col := 0;
        while col < ENEMIES_PER_ROW
          invariant 0 <= col <= ENEMIES_PER_ROW
          invariant enemies == Grid()[..row * ENEMIES_PER_ROW + col]
          invariant State() == old(State()).(enemies := enemies)
        {
          GridAt(row, col);
          enemies := enemies + [Enemy(
            (col as real) * (ENEMY_SIZE + 10.0 * RATIO) + 50.0 * RATIO,
            (row as real) * (ENEMY_SIZE + 10.0 * RATIO) + 50.0 * RATIO,
            row, col)];
          col := col + 1;
        }
        row := row + 1;
      }
    }

    /** Fires one projectile from the player; earlier projectiles stay as they were. */
    method ShootProjectile()
      modifies this
      ensures State() == old(State()).(projectiles := old(projectiles) + [Shot(old(player))])
    {
      projectiles := projectiles + [Projectile(player.x + PLAYER_SIZE / 2.0, player.y)];
    }

    /** The keydown handler. */
    method HandleKey(key: Key)
      requires Valid(State())
      modifies this
      ensures State() == OnKey(old(State()), key) && Valid(State())
    {
      OnKeyKeepsValid(State(), key);
      if phase != Playing {
        return;
      }
      match key
      case ArrowLeft =>
        player := player.(x := if 0.0 > player.x - PLAYER_STEP then 0.0 else player.x - PLAYER_STEP);
      case ArrowRight =>
        player := player.(x := if CANVAS_WIDTH - PLAYER_SIZE < player.x + PLAYER_STEP
                               then CANVAS_WIDTH - PLAYER_SIZE else player.x + PLAYER_STEP);
      case Space =>
        ShootProjectile();
      case OtherKey =>
    }

    /** Formation motion: the direction starts at +RATIO; if the leftmost enemy is at
        or past the left wall or the rightmost at or past the right wall, it is
        negated and every enemy drops; then every enemy moves sideways. */
    method MoveFormation()
      requires enemies != []
      modifies this
      ensures State() == old(State()).(enemies := Move(old(enemies), old(level)))
    {
      ghost var start := enemies;
      var direction := 1.0 * RATIO;
      var leftmost := enemies[Leftmost(enemies)];
      var rightmost := enemies[Rightmost(enemies)];
      var wall := leftmost.x <= 0.0 || rightmost.x >= CANVAS_WIDTH - ENEMY_SIZE;
      if wall {
        direction := -direction;
        ShiftAll(0.0, 5.0 * RATIO);
      }
      var dx := direction * (0.5 + (level as real) * 0.1);
      assert dx == if wall then -Drift(level) else Drift(level);
      ShiftAll(dx, 0.0);
      MoveIsShift(start, level);
      ShiftTwice(start, dx, if wall then FORMATION_DROP else 0.0);
    }

    /** One `forEach` over the enemies adding (dx, dy) to every position. */
    method ShiftAll(dx: real, dy: real)
      modifies this
      ensures State() == old(State()).(enemies := Shift(old(enemies), dx, dy))
    {
      ghost var start := enemies;
      var i := 0;
      while i < |enemies|
        invariant 0 <= i <= |enemies| == |start|
        invariant forall k :: 0 <= k < i ==> enemies[k] == Shift(start, dx, dy)[k]
        invariant forall k :: i <= k < |enemies| ==> enemies[k] == start[k]
        invariant State() == old(State()).(enemies := enemies)
      {
        enemies := enemies[i := enemies[i].(x := enemies[i].x + dx, y := enemies[i].y + dy)];
        i := i + 1;
      }
    }

    /** Every projectile climbs; those no longer above the top edge are dropped. */
    method AdvanceProjectiles()
      modifies this
      ensures State() == old(State()).(projectiles := Advance(old(projectiles)))
    {
      var kept := [];
      var i := 0;
      while i < |projectiles|
        invariant 0 <= i <= |projectiles|
        invariant kept == Advance(projectiles[..i])
        invariant State() == old(State())
      {
        assert projectiles[..i + 1][..i] == projectiles[..i];
        var p := projectiles[i].(y := projectiles[i].y - 5.0 * RATIO);
        if p.y > 0.0 {
          kept := kept + [p];
        }
        i := i + 1;
      }
      assert projectiles[..i] == projectiles;
      projectiles := kept;
    }

    /** The collision filter: hit enemies are removed, each adding 10 * level points. */
    method ResolveCollisions()
      modifies this
      ensures var o := Collide(old(enemies), old(projectiles), old(level), old(score));
        State() == old(State()).(enemies := o.survivors, score := o.score)
    {
      var survivors := [];
      var i := 0;
      while i < |enemies|
        invariant 0 <= i <= |enemies|
        invariant Outcome(survivors, score) == Collide(enemies[..i], projectiles, level, old(score))
        invariant State() == old(State()).(score := score)
      {
        assert enemies[..i + 1][..i] == enemies[..i];
        var hit := AnyHit(enemies[i], projectiles);
        if hit {
          score := score + 10 * level;
        } else {
          survivors := survivors + [enemies[i]];
        }
        i := i + 1;
      }
      assert enemies[..i] == enemies;
      enemies := survivors;
    }

    /** Enemies whose bottom edge reached the bottom go back to the top at the x
        given by their random draw. */
    method WrapEnemies(draws: seq<real>)
      requires UnitDraws(draws) && |draws| >= |enemies|
      modifies this
      ensures State() == old(State()).(enemies := Wrap(old(enemies), draws))
    {
      ghost var start := enemies;
      var i := 0;
      while i < |enemies|
        invariant 0 <= i <= |enemies| == |start|
        invariant forall k :: 0 <= k < i ==> enemies[k] == Wrap(start, draws)[k]
        invariant forall k :: i <= k < |enemies| ==> enemies[k] == start[k]
        invariant State() == old(State()).(enemies := enemies)
      {
        if enemies[i].y + ENEMY_SIZE >= CANVAS_HEIGHT {
          enemies := enemies[i := enemies[i].(y := 0.0)];
          enemies := enemies[i := enemies[i].(x := draws[i] * (CANVAS_WIDTH - ENEMY_SIZE))];
        }
        i := i + 1;
      }
    }

    /** One tick of the game loop (stars, drawing and the score text aside). */
    method UpdateGame(draws: seq<real>)
      requires Valid(State()) && Ready(State(), draws)
      modifies this
      ensures State() == Tick(old(State()), draws) && Valid(State())
    {
      TickKeepsValid(State(), draws);
      if phase != Playing {
        return;
      }
      MoveFormation();
      AdvanceProjectiles();
      ResolveCollisions();
      if |enemies| == 0 {
        level := level + 1;
        CreateEnemyFormation();
      }
      WrapEnemies(draws);
    }

    /** The reset the start button performs. */
    method Initialize()
      modifies this
      ensures State() == Restarted() && Valid(State())
    {
      phase := Playing;
      score := 0;
      level := 1;
      projectiles := [];
      player := Position(CANVAS_WIDTH / 2.0, CANVAS_HEIGHT - PLAYER_SIZE);
      CreateEnemyFormation();
      RestartedValid();
    }

    /** The start button: the reset, then the first tick. */
    method StartSession(draws: seq<real>)
      requires UnitDraws(draws) && |draws| >= FORMATION_SIZE
      modifies this
      ensures State() == Tick(Restarted(), draws) && Valid(State())
    {
      Initialize();
      UpdateGame(draws);
    }
  }
}
