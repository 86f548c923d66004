/** Projectiles: the shot fired from the player, and the per-tick climb that
    drops every projectile that left the top of the canvas. */
module Projectiles {
  import opened Entities

  /** The projectile a shot creates: horizontally centred on the player, at the
      player's y; from a player inside the canvas it starts inside the canvas. */
  function Shot(player: Position): (p: Projectile)
    ensures p.x - player.x == (player.x + PLAYER_SIZE) - p.x
    ensures p.y == player.y
    ensures 0.0 <= player.x <= CANVAS_WIDTH - PLAYER_SIZE ==> 0.0 < p.x < CANVAS_WIDTH
  {
    Projectile(player.x + PLAYER_SIZE / 2.0, player.y)
  }

  /** A projectile moved up by one tick's step. */
  function Climb(p: Projectile): Projectile {
    p.(y := p.y - PROJECTILE_STEP)
  }

  /** Number of projectiles whose y is still above 0 after one climb. */
  function KeptCount(ps: seq<Projectile>): nat {
    if ps == [] then 0
    else KeptCount(ps[..|ps| - 1]) + (if Climb(ps[|ps| - 1]).y > 0.0 then 1 else 0)
  }

  /** One tick of projectiles: every projectile climbs, and those whose new y is
      not above 0 are dropped; the others keep their order. */
  function Advance(ps: seq<Projectile>): (r: seq<Projectile>)
    ensures |r| == KeptCount(ps) <= |ps|
    ensures forall q :: q in r ==> q.y > 0.0
  {
    if ps == [] then []
    else
      var kept := Advance(ps[..|ps| - 1]);
      var p := Climb(ps[|ps| - 1]);
      if p.y > 0.0 then kept + [p] else kept
  }

  /** The projectiles Advance keeps are exactly the climbed ones still above the top edge. */
  lemma {:induction false} AdvanceMembers(ps: seq<Projectile>, q: Projectile)
    ensures q in Advance(ps) <==> q.y > 0.0 && exists i :: 0 <= i < |ps| && q == Climb(ps[i])
  {
    if ps != [] {
      var init := ps[..|ps| - 1];
      AdvanceMembers(init, q);
      if exists i :: 0 <= i < |init| && q == Climb(init[i]) {
        var i :| 0 <= i < |init| && q == Climb(init[i]);
        assert q == Climb(ps[i]);
      }
      if exists i :: 0 <= i < |ps| && q == Climb(ps[i]) {
        var i :| 0 <= i < |ps| && q == Climb(ps[i]);
        if i < |init| {
          assert q == Climb(init[i]);
        }
      }
    }
  }

  /** The climbed projectiles, none dropped. */
  function ClimbAll(ps: seq<Projectile>): seq<Projectile> {
    seq(|ps|, i requires 0 <= i < |ps| => Climb(ps[i]))
  }

  /** Advance keeps the original order: its result is a subsequence of the climbed projectiles. */
  lemma {:induction false} AdvanceInOrder(ps: seq<Projectile>)
    ensures exists idx :: Embeds(Advance(ps), ClimbAll(ps), idx)
  {
    if ps == [] {
      assert Embeds(Advance(ps), ClimbAll(ps), []);
    } else {
      var init := ps[..|ps| - 1];
      var p := Climb(ps[|ps| - 1]);
      AdvanceInOrder(init);
      var idx: seq<nat> :| Embeds(Advance(init), ClimbAll(init), idx);
      assert ClimbAll(ps) == ClimbAll(init) + [p];
      if p.y > 0.0 {
        assert Advance(ps) == Advance(init) + [p];
        EmbedsKeep(Advance(init), ClimbAll(init), idx, p);
      } else {
        assert Advance(ps) == Advance(init);
        EmbedsSkip(Advance(init), ClimbAll(init), idx, p);
      }
    }
  }

  /** n ticks of projectile motion. */
  function AdvanceTimes(ps: seq<Projectile>, n: nat): seq<Projectile> {
    if n == 0 then ps else Advance(AdvanceTimes(ps, n - 1))
  }

  /** A single projectile after one tick: climbed, or gone once its new y is not above 0. */
  lemma AdvanceOne(q: Projectile)
    ensures Advance([q]) == if q.y - PROJECTILE_STEP > 0.0 then [q.(y := q.y - PROJECTILE_STEP)] else []
  {
    assert [q][..0] == [];
  }

  /** The height after n climbs is one step below the height after n - 1. */
  lemma StepDown(y: real, n: nat)
    requires n > 0
    ensures y - (n as real) * PROJECTILE_STEP == (y - ((n - 1) as real) * PROJECTILE_STEP) - PROJECTILE_STEP
  {
  }

  /** Expiry: a lone projectile fired at height y0 is still alive after n ticks,
      at y0 - n * PROJECTILE_STEP, exactly when that height is above 0, and gone otherwise. */
  lemma {:induction false} Expiry(p: Projectile, n: nat)
    requires p.y > 0.0
    ensures AdvanceTimes([p], n) ==
      if p.y - (n as real) * PROJECTILE_STEP > 0.0
      then [p.(y := p.y - (n as real) * PROJECTILE_STEP)]
      else []
  {
    if n > 0 {
      Expiry(p, n - 1);
      var before := p.y - ((n - 1) as real) * PROJECTILE_STEP;
      var after := p.y - (n as real) * PROJECTILE_STEP;
      StepDown(p.y, n);
      var prev := AdvanceTimes([p], n - 1);
      assert AdvanceTimes([p], n) == Advance(prev);
      if before > 0.0 {
        var q := Projectile(p.x, before);
        assert prev == [q];
        AdvanceOne(q);
        assert q.y - PROJECTILE_STEP == after;
        assert q.(y := q.y - PROJECTILE_STEP) == Projectile(p.x, after);
      } else {
        assert prev == [];
        assert !(after > 0.0);
      }
    }
  }
}
