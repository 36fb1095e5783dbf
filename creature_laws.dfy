/** Properties of the creature rules: hp writes, block-first damage, hits,
    and the two turn boundaries. */
module CreatureLaws {
  import opened Base
  import opened Modifiers
  import opened Attacks
  import opened Creatures

  /** A run of hp writes, in order. */
  function HpWrites(s: CState, vs: seq<int>): CState
    requires HpWritable(s)
    ensures HpWritable(HpWrites(s, vs))
    decreases |vs|
  {
    if vs == [] then s else HpWrites(AfterHpWrite(s, vs[0]), vs[1..])
  }

  /** Once "buffer" is a permanent, every later hp write is discarded: hp and
      alive stay as they are, each write spends one charge, and the entry
      stays present even at 0 or below. */
  lemma {:induction false} BufferAbsorbsEveryWrite(s: CState, vs: seq<int>)
    requires HpWritable(s) && "buffer" in s.permanents
    ensures "buffer" in HpWrites(s, vs).permanents
    ensures HpWrites(s, vs).permanents["buffer"] == Int(s.permanents["buffer"].n - |vs|)
    ensures HpWrites(s, vs).rawHp == s.rawHp && HpWrites(s, vs).alive == s.alive
    decreases |vs|
  {
    if vs != [] {
      BufferAbsorbsEveryWrite(AfterHpWrite(s, vs[0]), vs[1..]);
    }
  }

  /** Without buffer, a write of v sets hp to v, or to exactly 0 with alive
      false when v is 0 or less; alive is never set back to true. */
  lemma HpWriteWithoutBuffer(s: CState, v: int)
    requires HpWritable(s) && "buffer" !in s.permanents
    ensures v > 0 ==> HpOf(AfterHpWrite(s, v)) == v && AfterHpWrite(s, v).alive == s.alive
    ensures v <= 0 ==> HpOf(AfterHpWrite(s, v)) == 0 && !AfterHpWrite(s, v).alive
  {
  }

  /** A dead creature stays dead through every creature operation. */
  lemma DeathIsFinal(s: CState, p: Profile, v: int, d: int, atk: Attack)
    requires Hittable(s) && EndTurnReady(s, p) && !s.alive
    ensures !AfterHpWrite(s, v).alive
    ensures !AfterDamage(s, p, d).alive
    ensures !AfterHit(s, p, atk).0.alive
    ensures !AfterStartTurn(s).alive
    ensures !AfterEndTurn(s, p).alive
  {
  }

  /** Damage no larger than block only lowers block. */
  lemma DamageAbsorbedByBlock(s: CState, p: Profile, d: int)
    requires Hittable(s) && d <= BlockOf(s)
    ensures AfterDamage(s, p, d) == s.(curBlock := Some(BlockOf(s) - d))
    ensures HpOf(AfterDamage(s, p, d)) == HpOf(s) && BlockOf(AfterDamage(s, p, d)) == BlockOf(s) - d
  {
  }

  /** Damage beyond block empties block; without buffer or invincible, hp
      falls by the excess (clamped at 0). */
  lemma DamagePiercesBlock(s: CState, p: Profile, d: int)
    requires Hittable(s) && d > BlockOf(s)
    requires "buffer" !in s.permanents && "invincible" !in s.permanents
    ensures BlockOf(AfterDamage(s, p, d)) == 0
    ensures HpOf(AfterDamage(s, p, d)) == if HpOf(s) - (d - BlockOf(s)) <= 0 then 0 else HpOf(s) - (d - BlockOf(s))
    ensures AfterDamage(s, p, d).alive == (s.alive && HpOf(s) - (d - BlockOf(s)) > 0)
  {
  }

  /** With "invincible" at i and the turn counter at its constant 0, one call
      loses at most i hp beyond block. */
  lemma InvincibleCapsOneCall(s: CState, p: Profile, d: int)
    requires Hittable(s) && d > BlockOf(s) && p.takenThisTurn == 0
    requires "buffer" !in s.permanents && "invincible" in s.permanents
    ensures var i := s.permanents["invincible"].n;
            var loss := Min(d - BlockOf(s), i);
            HpOf(AfterDamage(s, p, d)) == if HpOf(s) - loss <= 0 then 0 else HpOf(s) - loss
  {
  }

  /** The counter of damage taken this turn is never updated, so the cap is per
      call: two calls in the same turn can each take the full cap. */
  lemma InvincibleCapIsPerCall(s: CState, p: Profile, d1: int, d2: int)
    requires Hittable(s) && p.takenThisTurn == 0 && BlockOf(s) == 0
    requires "buffer" !in s.permanents && "invincible" in s.permanents
    requires var i := s.permanents["invincible"].n; 0 <= i && d1 >= i && d2 >= i && HpOf(s) > 2 * i
    ensures HpOf(AfterDamage(AfterDamage(s, p, d1), p, d2)) == HpOf(s) - 2 * s.permanents["invincible"].n
  {
    var s1 := AfterDamage(s, p, d1);
    assert HpOf(s1) == HpOf(s) - s.permanents["invincible"].n;
    assert s1.permanents == s.permanents;
  }

  /** The damage a hit passes on: x1.5 rounded down under vulnerable, then at
      most 1 under intangible. */
  lemma HitDamageRules(s: CState, atk: Attack)
    ensures "intangible" in s.statuses ==> HitDamage(s, atk) <= 1
    ensures "intangible" in s.statuses && atk.damage >= 1 ==> HitDamage(s, atk) == 1
    ensures "vulnerable" in s.statuses && "intangible" !in s.statuses ==>
              2 * HitDamage(s, atk) <= 3 * atk.damage < 2 * HitDamage(s, atk) + 2
    ensures "vulnerable" !in s.statuses && "intangible" !in s.statuses ==> HitDamage(s, atk) == atk.damage
  {
  }

  /** take_hit returns thorns + flame_barrier as they were before the hit,
      whatever the damage. */
  lemma RetaliationIgnoresDamage(s: CState, p: Profile, atk: Attack)
    requires Hittable(s)
    ensures AfterHit(s, p, atk).1 == Retaliation(s.permanents)
  {
    var s' := AfterDamage(s, p, HitDamage(s, atk));
    assert "thorns" in s'.permanents ==> s'.permanents["thorns"] == s.permanents["thorns"];
    assert "flame_barrier" in s'.permanents ==> s'.permanents["flame_barrier"] == s.permanents["flame_barrier"];
  }

  /** start_turn_resolution: untouched on the first turn; afterwards only
      block changes, to 0 unless blur or barricade keeps it. */
  lemma StartTurnEffects(s: CState)
    ensures s.turnsTaken == 0 ==> AfterStartTurn(s) == s
    ensures AfterStartTurn(s).(curBlock := s.curBlock) == s
    ensures s.turnsTaken > 0 && "blur" !in s.statuses && "barricade" !in s.permanents ==>
              BlockOf(AfterStartTurn(s)) == 0
    ensures "blur" in s.statuses || "barricade" in s.permanents ==> AfterStartTurn(s) == s
  {
  }

  /** end_turn_resolution without buffer or poison: hp heals by regeneration
      up to max hp, turns_taken grows by one, and every status, regeneration
      included, decays one step. */
  lemma EndTurnEffects(s: CState, p: Profile)
    requires EndTurnReady(s, p) && "buffer" !in s.permanents && "poison" !in s.statuses
    ensures var r := AfterEndTurn(s, p);
            && r.turnsTaken == s.turnsTaken + 1
            && r.statuses == Decayed(s.statuses)
            && r.permanents == s.permanents
            && ("regeneration" in s.statuses ==>
                  var h := Min(HpOf(s) + s.statuses["regeneration"].n, p.maxHp.value);
                  HpOf(r) == (if h <= 0 then 0 else h))
            && ("regeneration" !in s.statuses ==> r.rawHp == s.rawHp && r.alive == s.alive)
  {
  }

  /** Poison is applied from its value before the decrement. */
  lemma PoisonBeforeDecay(s: CState, p: Profile)
    requires EndTurnReady(s, p) && "buffer" !in s.permanents && "regeneration" !in s.statuses
    requires "poison" in s.statuses
    ensures var h := HpOf(s) - s.statuses["poison"].n;
            HpOf(AfterEndTurn(s, p)) == (if h <= 0 then 0 else h)
  {
  }

  /** Block 10 and 100 hp: 0 damage changes nothing, 5 leaves hp 100 and
      block 5, 10 more leaves hp 95 and block 0; with block set back to 10,
      10 damage leaves hp 95 and block 0, and 1 more leaves hp 94. */
  lemma ScenarioBlockThenHp(st: Store, pm: Store, p: Profile)
    requires "buffer" !in pm && "invincible" !in pm
    requires IntOrAbsent(pm, "thorns") && IntOrAbsent(pm, "flame_barrier")
    ensures var s := CState(Some(100), Some(10), st, pm, 0, true, [], 0);
            var s0 := AfterDamage(s, p, 0);
            var s1 := AfterDamage(s0, p, 5);
            var s2 := AfterDamage(s1, p, 10);
            var s3 := AfterDamage(s2.(curBlock := Some(10)), p, 10);
            var s4 := AfterDamage(s3, p, 1);
            && HpOf(s0) == 100 && BlockOf(s0) == 10
            && HpOf(s1) == 100 && BlockOf(s1) == 5 && HpOf(s2) == 95 && BlockOf(s2) == 0
            && HpOf(s3) == 95 && BlockOf(s3) == 0 && HpOf(s4) == 94 && BlockOf(s4) == 0
  {
  }

  /** Removing a single name: it succeeds exactly when the name is present,
      and then drops its first occurrence and the weight at the same index. */
  lemma PruneOne(acts: seq<string>, ws: seq<real>, a: string)
    requires |ws| == |acts|
    ensures Pruned(acts, Some(ws), [a]).outcome.Pass? <==> a in acts
    ensures a in acts ==>
              var i := IndexOf(acts, a).value;
              Pruned(acts, Some(ws), [a]) == Pruning(RemoveAt(acts, i), Some(RemoveAt(ws, i)), Pass)
    ensures a !in acts ==> Pruned(acts, Some(ws), [a]).actions == acts
  {
    assert [a][1..] == [];
  }

  /** A successful removal of n names shortens both lists by n and keeps them
      the same length. */
  lemma {:induction false} PrunedLengths(acts: seq<string>, ws: seq<real>, toRemove: seq<string>)
    requires |ws| == |acts|
    ensures var p := Pruned(acts, Some(ws), toRemove);
            p.outcome.Pass? ==>
              && |p.actions| == |acts| - |toRemove|
              && p.weights.Some? && |p.weights.value| == |p.actions|
    decreases |toRemove|
  {
    if toRemove != [] {
      match IndexOf(acts, toRemove[0])
      case None =>
      case Some(i) =>
        PrunedLengths(RemoveAt(acts, i), RemoveAt(ws, i), toRemove[1..]);
    }
  }
}
