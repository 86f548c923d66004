/** The enemy formation: the grid generator, the per-tick rigid motion with
    its wall test, and the wrap of enemies that reached the bottom edge. */
module Formation {
  import opened Entities

  /** The enemy generated for grid cell (row, col). */
  function GridEnemy(row: nat, col: nat): (e: Enemy)
    requires row < ENEMY_ROWS && col < ENEMIES_PER_ROW
    ensures e.row == row && e.col == col
    ensures 0.0 <= e.x <= CANVAS_WIDTH - ENEMY_SIZE
    ensures 0.0 <= e.y <= CANVAS_HEIGHT - ENEMY_SIZE
  {
    Enemy((col as real) * (ENEMY_SIZE + 10.0 * RATIO) + 50.0 * RATIO,
          (row as real) * (ENEMY_SIZE + 10.0 * RATIO) + 50.0 * RATIO,
          row, col)
  }

  /** A freshly generated formation: every cell of the grid, row by row.
      The enemy at index i is the one of cell (row, col) with i == row * ENEMIES_PER_ROW + col. */
  function Grid(): (f: seq<Enemy>)
    ensures |f| == FORMATION_SIZE
    ensures forall i :: 0 <= i < |f| ==>
      f[i].row < ENEMY_ROWS && f[i].col < ENEMIES_PER_ROW &&
      f[i].row * ENEMIES_PER_ROW + f[i].col == i &&
      f[i] == GridEnemy(f[i].row, f[i].col)
  {
    seq(FORMATION_SIZE, i requires 0 <= i < FORMATION_SIZE =>
      GridEnemy(i / ENEMIES_PER_ROW, i % ENEMIES_PER_ROW))
  }

  /** Row-major layout: cell (row, col) sits at index row * ENEMIES_PER_ROW + col. */
  lemma GridAt(row: nat, col: nat)
    requires row < ENEMY_ROWS && col < ENEMIES_PER_ROW
    ensures row * ENEMIES_PER_ROW + col < |Grid()|
    ensures Grid()[row * ENEMIES_PER_ROW + col] == GridEnemy(row, col)
  {
    var i := row * ENEMIES_PER_ROW + col;
    assert i < FORMATION_SIZE;
  }

  /** Index of the enemy `enemies.reduce((min, e) => e.x < min.x ? e : min)` yields:
      the first one with the least x. */
  function Leftmost(es: seq<Enemy>): (k: nat)
    requires es != []
    ensures k < |es|
    ensures forall j :: 0 <= j < |es| ==> es[k].x <= es[j].x
    ensures forall j :: 0 <= j < k ==> es[k].x < es[j].x
  {
    if |es| == 1 then 0
    else
      var k := Leftmost(es[..|es| - 1]);
      if es[|es| - 1].x < es[k].x then |es| - 1 else k
  }

  /** Index of the enemy `enemies.reduce((max, e) => e.x > max.x ? e : max)` yields:
      the first one with the greatest x. */
  function Rightmost(es: seq<Enemy>): (k: nat)
    requires es != []
    ensures k < |es|
    ensures forall j :: 0 <= j < |es| ==> es[j].x <= es[k].x
    ensures forall j :: 0 <= j < k ==> es[j].x < es[k].x
  {
    if |es| == 1 then 0
    else
      var k := Rightmost(es[..|es| - 1]);
      if es[|es| - 1].x > es[k].x then |es| - 1 else k
  }

  /** The wall test as the tick writes it, on the leftmost and rightmost enemies. */
  predicate AtWall(es: seq<Enemy>)
    requires es != []
  {
    es[Leftmost(es)].x <= 0.0 || es[Rightmost(es)].x >= CANVAS_WIDTH - ENEMY_SIZE
  }

  /** An enemy touching or beyond a side wall. */
  predicate Outside(e: Enemy) {
    e.x <= 0.0 || e.x >= CANVAS_WIDTH - ENEMY_SIZE
  }

  /** The reduce-based wall test fires exactly when some enemy is at or beyond a wall. */
  lemma AtWallIff(es: seq<Enemy>)
    requires es != []
    ensures AtWall(es) <==> exists i :: 0 <= i < |es| && Outside(es[i])
  {
    var l, r := Leftmost(es), Rightmost(es);
    if exists i :: 0 <= i < |es| && Outside(es[i]) {
      var i :| 0 <= i < |es| && Outside(es[i]);
      assert es[l].x <= es[i].x && es[i].x <= es[r].x;
    } else {
      assert !Outside(es[l]) && !Outside(es[r]);
    }
  }

  /** How far the formation moves sideways in one tick at a level: the
      direction's magnitude RATIO times the speed factor 0.5 + level * 0.1. */
  function Drift(level: int): (d: real)
    ensures level >= 1 ==> d >= 1.2
  {
    RATIO * (0.5 + (level as real) * 0.1)
  }

  /** Every enemy moved by the same (dx, dy). */
  function Shift(es: seq<Enemy>, dx: real, dy: real): seq<Enemy> {
    seq(|es|, i requires 0 <= i < |es| => es[i].(x := es[i].x + dx, y := es[i].y + dy))
  }

  /** One tick of formation motion. The direction starts at +RATIO on every tick;
      the wall test, measured before moving, negates it and drops the formation. */
  function Move(es: seq<Enemy>, level: int): seq<Enemy>
    requires es != []
  {
    var wall := AtWall(es);
    Shift(es, if wall then -Drift(level) else Drift(level), if wall then FORMATION_DROP else 0.0)
  }

  /** A drop followed by a sideways move is one shift. */
  lemma ShiftTwice(es: seq<Enemy>, dx: real, dy: real)
    ensures Shift(Shift(es, 0.0, dy), dx, 0.0) == Shift(es, dx, dy)
  {
  }

  /** Rigid-body motion: every enemy's x changes by the same delta, which is
      -RATIO * speed exactly when some enemy is at a wall, and in that case every
      y grows by 5 * RATIO; otherwise y does not change. Cells are kept. */
  lemma MoveRigid(es: seq<Enemy>, level: int)
    requires es != []
    ensures |Move(es, level)| == |es|
    ensures forall i :: 0 <= i < |es| ==>
      Move(es, level)[i].row == es[i].row && Move(es, level)[i].col == es[i].col
    ensures (exists i :: 0 <= i < |es| && Outside(es[i])) ==>
      forall i :: 0 <= i < |es| ==>
        Move(es, level)[i].x == es[i].x - Drift(level) &&
        Move(es, level)[i].y == es[i].y + 5.0 * RATIO
    ensures (forall i :: 0 <= i < |es| ==> !Outside(es[i])) ==>
      forall i :: 0 <= i < |es| ==>
        Move(es, level)[i].x == es[i].x + Drift(level) &&
        Move(es, level)[i].y == es[i].y
  {
    AtWallIff(es);
  }

  /** Because the direction is reset every tick, a formation with an enemy at or
      past the left wall moves further left on its next move and is still at the wall. */
  lemma LeftWallPersists(es: seq<Enemy>, level: int)
    requires es != [] && level >= 1
    requires es[Leftmost(es)].x <= 0.0
    ensures AtWall(Move(es, level))
    ensures forall i :: 0 <= i < |es| ==> Move(es, level)[i].x < es[i].x
  {
    var l := Leftmost(es);
    assert Outside(es[l]);
    MoveRigid(es, level);
    var m := Move(es, level);
    assert Outside(m[l]);
    AtWallIff(m);
  }

  /** Because the direction is reset every tick, a formation that reaches the right
      wall by less than one drift, and is more than one drift from the left wall,
      does not travel back left: after two moves every enemy is at its old x again,
      one drop lower. */
  lemma RightWallJitter(es: seq<Enemy>, level: int)
    requires es != [] && level >= 1
    requires CANVAS_WIDTH - ENEMY_SIZE <= es[Rightmost(es)].x < CANVAS_WIDTH - ENEMY_SIZE + Drift(level)
    requires es[Leftmost(es)].x > Drift(level)
    ensures |Move(Move(es, level), level)| == |es|
    ensures forall i :: 0 <= i < |es| ==>
      Move(Move(es, level), level)[i] == es[i].(y := es[i].y + FORMATION_DROP)
  {
    var d := Drift(level);
    var m := Shift(es, -d, FORMATION_DROP);
    BounceOffRightWall(es, level);
    MoveIsShift(m, level);
    var back := Shift(m, d, 0.0);
    assert Move(Move(es, level), level) == back;
    assert |back| == |m| == |es|;
    forall i | 0 <= i < |es|
      ensures back[i] == es[i].(y := es[i].y + FORMATION_DROP)
    {
      assert m[i] == es[i].(x := es[i].x - d, y := es[i].y + FORMATION_DROP);
    }
  }

  /** The first move of RightWallJitter: back by one drift and one drop down,
      which leaves every enemy strictly between the walls. */
  lemma BounceOffRightWall(es: seq<Enemy>, level: int)
    requires es != [] && level >= 1
    requires CANVAS_WIDTH - ENEMY_SIZE <= es[Rightmost(es)].x < CANVAS_WIDTH - ENEMY_SIZE + Drift(level)
    requires es[Leftmost(es)].x > Drift(level)
    ensures Move(es, level) == Shift(es, -Drift(level), FORMATION_DROP)
    ensures !AtWall(Shift(es, -Drift(level), FORMATION_DROP))
  {
    var m := Shift(es, -Drift(level), FORMATION_DROP);
    MoveIsShift(es, level);
    forall i | 0 <= i < |m|
      ensures !Outside(m[i])
    {
      assert es[Leftmost(es)].x <= es[i].x <= es[Rightmost(es)].x;
    }
    AtWallIff(m);
  }

  /** Move as the shift it applies, in the two cases of the wall test. */
  lemma MoveIsShift(es: seq<Enemy>, level: int)
    requires es != []
    ensures AtWall(es) ==> Move(es, level) == Shift(es, -Drift(level), FORMATION_DROP)
    ensures !AtWall(es) ==> Move(es, level) == Shift(es, Drift(level), 0.0)
  {
  }

  /** An enemy whose bottom edge reached the bottom of the canvas. */
  predicate Breached(e: Enemy) {
    e.y + ENEMY_SIZE >= CANVAS_HEIGHT
  }

  /** Each random draw lies in [0, 1), as `Math.random()` does. */
  predicate UnitDraws(draws: seq<real>) {
    forall i :: 0 <= i < |draws| ==> 0.0 <= draws[i] < 1.0
  }

  /** The bottom-edge wrap: a breached enemy goes back to the top at the x
      `draws[i] * (CANVAS_WIDTH - ENEMY_SIZE)`, every other enemy is kept. */
  function Wrap(es: seq<Enemy>, draws: seq<real>): (r: seq<Enemy>)
    requires UnitDraws(draws) && |draws| >= |es|
    ensures |r| == |es|
    ensures forall i :: 0 <= i < |es| && Breached(es[i]) ==>
      r[i].y == 0.0 && 0.0 <= r[i].x < CANVAS_WIDTH - ENEMY_SIZE &&
      r[i].row == es[i].row && r[i].col == es[i].col
    ensures forall i :: 0 <= i < |es| && !Breached(es[i]) ==> r[i] == es[i]
    ensures forall i :: 0 <= i < |r| ==> !Breached(r[i])
  {
    seq(|es|, i requires 0 <= i < |es| =>
      if Breached(es[i]) then es[i].(y := 0.0, x := draws[i] * (CANVAS_WIDTH - ENEMY_SIZE))
      else es[i])
  }

  /** No enemy of a fresh formation is near the bottom, so the wrap leaves it as it is. */
  lemma WrapGrid(draws: seq<real>)
    requires UnitDraws(draws) && |draws| >= FORMATION_SIZE
    ensures Wrap(Grid(), draws) == Grid()
  {
    var f := Grid();
    forall i | 0 <= i < |f|
      ensures !Breached(f[i])
    {
      assert f[i] == GridEnemy(f[i].row, f[i].col);
    }
  }
}
