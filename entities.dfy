/** The game's constants and the values the simulation manipulates.
    All geometry is in canvas pixels, already multiplied by the device-pixel
    ratio, and idealised as exact `real` numbers. */
module Entities {

  const RATIO: real := 2.0
  const CANVAS_WIDTH: real := 400.0 * RATIO
  const CANVAS_HEIGHT: real := 400.0 * RATIO
  const PLAYER_SIZE: real := 20.0 * RATIO
  const ENEMY_SIZE: real := 15.0 * RATIO
  const ENEMY_ROWS: nat := 4
  const ENEMIES_PER_ROW: nat := 8

  /** Number of enemies in a freshly generated formation. */
  const FORMATION_SIZE: nat := ENEMY_ROWS * ENEMIES_PER_ROW

  /** How far a projectile climbs, and how far the formation drops on a wall hit, per tick. */
  const PROJECTILE_STEP: real := 5.0 * RATIO
  const FORMATION_DROP: real := 5.0 * RATIO

  /** How far one key press moves the player. */
  const PLAYER_STEP: real := 10.0 * RATIO

  /** The session state machine: `start` until the start button, then `playing` for good. */
  datatype Phase = Start | Playing

  /** An enemy of the grid: top-left corner and the grid cell it was created in. */
  datatype Enemy = Enemy(x: real, y: real, row: nat, col: nat)

  /** A projectile: its tip. */
  datatype Projectile = Projectile(x: real, y: real)

  /** The player's top-left corner. */
  datatype Position = Position(x: real, y: real)

  /** The keys the keydown handler distinguishes; every other key is `OtherKey`. */
  datatype Key = ArrowLeft | ArrowRight | Space | OtherKey

  function Abs(v: real): real {
    if v < 0.0 then -v else v
  }

  /** `idx` picks, in increasing order, the positions of `b` whose elements form `a`:
      `a` is a subsequence of `b`, in `b`'s order. */
  ghost predicate Embeds<T>(a: seq<T>, b: seq<T>, idx: seq<nat>) {
    |idx| == |a| &&
    (forall i :: 0 <= i < |a| ==> idx[i] < |b| && a[i] == b[idx[i]]) &&
    (forall i, j :: 0 <= i < j < |idx| ==> idx[i] < idx[j])
  }

  /** An element appended to the larger sequence only is skipped by the embedding. */
  lemma EmbedsSkip<T>(a: seq<T>, b: seq<T>, idx: seq<nat>, x: T)
    requires Embeds(a, b, idx)
    ensures Embeds(a, b + [x], idx)
  {
  }

  /** An element appended to both sequences is picked at the new last position. */
  lemma EmbedsKeep<T>(a: seq<T>, b: seq<T>, idx: seq<nat>, x: T)
    requires Embeds(a, b, idx)
    ensures Embeds(a + [x], b + [x], idx + [|b|])
  {
  }
}
