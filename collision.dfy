/** Collision and scoring: which enemies the projectiles hit, the enemies that
    survive, and the points the hits are worth. */
module Collision {
  import opened Entities

  /** The proximity test: both coordinate distances strictly below the enemy size.
      The projectile's own size plays no part. */
  predicate Near(e: Enemy, p: Projectile) {
    Abs(e.x - p.x) < ENEMY_SIZE && Abs(e.y - p.y) < ENEMY_SIZE
  }

  /** Some projectile is near the enemy. */
  predicate Hit(e: Enemy, ps: seq<Projectile>) {
    exists i :: 0 <= i < |ps| && Near(e, ps[i])
  }

  /** Points for one destroyed enemy at a level. */
  function Points(level: int): int {
    10 * level
  }

  /** Number of enemies some projectile hits. */
  function HitCount(es: seq<Enemy>, ps: seq<Projectile>): nat {
    if es == [] then 0
    else HitCount(es[..|es| - 1], ps) + (if Hit(es[|es| - 1], ps) then 1 else 0)
  }

  /** What collision resolution leaves: the enemies not hit, and the new score. */
  datatype Outcome = Outcome(survivors: seq<Enemy>, score: int)

  /** The collision filter of a tick, enemy by enemy in order: a hit enemy is
      removed and adds Points(level) to the score; the projectiles are not consumed,
      so one projectile may remove several enemies. */
  function Collide(es: seq<Enemy>, ps: seq<Projectile>, level: int, score: int): (o: Outcome)
    ensures |o.survivors| == |es| - HitCount(es, ps)
    ensures o.score == score + Points(level) * HitCount(es, ps)
  {
    if es == [] then Outcome([], score)
    else
      var init := es[..|es| - 1];
      var o := Collide(init, ps, level, score);
      var e := es[|es| - 1];
      assert es == init + [e];
      if Hit(e, ps) then
        assert HitCount(es, ps) == HitCount(init, ps) + 1;
        assert Points(level) * HitCount(es, ps) == Points(level) * HitCount(init, ps) + Points(level);
        Outcome(o.survivors, o.score + Points(level))
      else
        assert HitCount(es, ps) == HitCount(init, ps);
        Outcome(o.survivors + [e], o.score)
  }

  /** An enemy survives exactly when no projectile hits it. */
  lemma {:induction false} CollideMembers(es: seq<Enemy>, ps: seq<Projectile>, level: int, score: int, e: Enemy)
    ensures e in Collide(es, ps, level, score).survivors <==> e in es && !Hit(e, ps)
  {
    if es != [] {
      var init := es[..|es| - 1];
      CollideMembers(init, ps, level, score, e);
      assert es == init + [es[|es| - 1]];
    }
  }

  /** The survivors keep their relative order: they are a subsequence of the enemies. */
  lemma {:induction false} CollideInOrder(es: seq<Enemy>, ps: seq<Projectile>, level: int, score: int)
    ensures exists idx :: Embeds(Collide(es, ps, level, score).survivors, es, idx)
  {
    if es == [] {
      assert Embeds(Collide(es, ps, level, score).survivors, es, []);
    } else {
      var init := es[..|es| - 1];
      var e := es[|es| - 1];
      CollideInOrder(init, ps, level, score);
      var idx: seq<nat> :| Embeds(Collide(init, ps, level, score).survivors, init, idx);
      assert es == init + [e];
      if Hit(e, ps) {
        assert Collide(es, ps, level, score).survivors == Collide(init, ps, level, score).survivors;
        EmbedsSkip(Collide(init, ps, level, score).survivors, init, idx, e);
      } else {
        assert Collide(es, ps, level, score).survivors == Collide(init, ps, level, score).survivors + [e];
        EmbedsKeep(Collide(init, ps, level, score).survivors, init, idx, e);
      }
    }
  }

  /** A projectile outside the proximity box of every enemy removes nothing:
      with no hit at all, every enemy survives, in place, and the score stays. */
  lemma {:induction false} CollideNoHit(es: seq<Enemy>, ps: seq<Projectile>, level: int, score: int)
    requires forall i :: 0 <= i < |es| ==> !Hit(es[i], ps)
    ensures Collide(es, ps, level, score) == Outcome(es, score)
  {
    if es != [] {
      CollideNoHit(es[..|es| - 1], ps, level, score);
      assert es == es[..|es| - 1] + [es[|es| - 1]];
    }
  }

  /** The score never decreases at a positive level. */
  lemma CollideScoreGrows(es: seq<Enemy>, ps: seq<Projectile>, level: int, score: int)
    requires level >= 1
    ensures Collide(es, ps, level, score).score >= score
  {
    var h := HitCount(es, ps);
    assert Points(level) * h >= 0 by {
      assert Points(level) >= 10;
    }
  }
}
