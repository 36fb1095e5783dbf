/** The battle engine on values: the two rosters as one sequence of creature
    states (left roster first, `nl` creatures), the profiles alongside, and
    the rules of one creature's turn, the stop check, a round and a battle. */
module SimulatorRules {
  import opened Base
  import opened Modifiers
  import opened Attacks
  import opened Creatures
  import Heart
  import JawWorm
  import opened Actions
  import CreatureLaws

  // ---------------------------------------------------------------------
  // Typing: the entries every step does arithmetic on hold integers, so no
  // TypeError or IndexError escapes. `nullable` names the statuses that may
  // hold None.

  /** The statuses an attack applies are None exactly at nullable names. */
  predicate AttackTyped(atk: Attack, nullable: set<string>) {
    atk.statuses.Some? ==>
      forall k :: k in atk.statuses.value ==> (atk.statuses.value[k].Null? <==> k in nullable)
  }

  /** Every attack the species can produce is typed. */
  predicate SpeciesTyped(sp: Species, nullable: set<string>) {
    match sp
    case Generic(_, producers) => forall name :: name in producers ==> AttackTyped(producers[name], nullable)
    case HeartKind => "weak" !in nullable && "vulnerable" !in nullable && "frail" !in nullable
    case JawWormKind => true
  }

  predicate Typed(p: Profile, s: CState, nullable: set<string>) {
    && Hittable(s)
    && IntOrAbsent(s.permanents, "beat_of_death")
    && IntOrAbsent(s.statuses, "regeneration")
    && IntOrAbsent(s.statuses, "poison")
    && (s.alive ==> p.maxHp.Some?)
    && (forall k :: k in s.statuses && s.statuses[k].Null? ==> k in nullable)
    && ActionReady(p, s)
    && (p.species.HeartKind? ==> Heart.Buffable(s))
    && SpeciesTyped(p.species, nullable)
    && "poison" !in nullable && "regeneration" !in nullable
  }

  predicate BoardTyped(cast: seq<Profile>, b: seq<CState>, nullable: set<string>) {
    |cast| == |b| && forall j :: 0 <= j < |b| ==> Typed(cast[j], b[j], nullable)
  }

  lemma TypedStart(p: Profile, s: CState, nullable: set<string>)
    requires Typed(p, s, nullable)
    ensures Typed(p, AfterStartTurn(s), nullable)
  {
  }

  lemma TypedHpWrite(p: Profile, s: CState, v: int, nullable: set<string>)
    requires Typed(p, s, nullable)
    ensures Typed(p, AfterHpWrite(s, v), nullable)
  {
    var r := AfterHpWrite(s, v);
    assert forall k :: k in s.permanents && k != "buffer" ==> r.permanents[k] == s.permanents[k];
  }

  lemma TypedDamage(p: Profile, s: CState, q: Profile, d: int, nullable: set<string>)
    requires Typed(p, s, nullable)
    ensures Typed(p, AfterDamage(s, q, d), nullable)
    ensures AfterDamage(s, q, d).prevActions == s.prevActions
  {
    var r := AfterDamage(s, q, d);
    assert "strength" in s.permanents ==> r.permanents["strength"] == s.permanents["strength"];
    assert "beat_of_death" in s.permanents ==> r.permanents["beat_of_death"] == s.permanents["beat_of_death"];
  }

  lemma TypedBuff(p: Profile, s: CState, nullable: set<string>)
    requires Typed(p, s, nullable) && p.species.HeartKind?
    ensures Typed(p, Heart.AfterBuff(s), nullable)
  {
    var r := Heart.AfterBuff(s);
    assert forall k :: k in r.statuses ==> k in s.statuses && r.statuses[k] == s.statuses[k];
  }

  lemma TypedBellow(p: Profile, s: CState, nullable: set<string>)
    requires Typed(p, s, nullable) && p.species.JawWormKind?
    ensures Typed(p, JawWorm.AfterBellow(p.ascension, s).0, nullable)
  {
  }

  /** The producer a take_action runs keeps the creature typed and returns
      a typed attack. */
  lemma TypedProduce(p: Profile, s: CState, name: string, nullable: set<string>)
    requires Typed(p, s, nullable) && InCatalog(p.species, name)
    ensures Typed(p, Produce(p, s, name).0, nullable)
    ensures AttackTyped(Produce(p, s, name).1, nullable)
  {
    match p.species
    case Generic(_, producers) =>
    case HeartKind =>
      if name == "buff" {
        TypedBuff(p, s, nullable);
      }
    case JawWormKind =>
      if name == "bellow" {
        TypedBellow(p, s, nullable);
      }
  }

  lemma TypedAction(p: Profile, s: CState, d: Draw, nullable: set<string>)
    requires Typed(p, s, nullable)
    ensures Typed(p, AfterAction(p, s, d).0, nullable)
    ensures AttackTyped(AfterAction(p, s, d).1, nullable)
    ensures |AfterAction(p, s, d).0.prevActions| > 0
  {
    ActionKeepsReady(p, s, d);
    TypedProduce(p, s, PickAction(p, s, d), nullable);
  }

  lemma TypedDecay(p: Profile, s: CState, nullable: set<string>)
    requires Typed(p, s, nullable)
    ensures Typed(p, s.(statuses := Decayed(s.statuses)), nullable)
  {
  }

  lemma TypedTicks(p: Profile, s: CState, nullable: set<string>)
    requires Typed(p, s, nullable)
    ensures Typed(p, AfterStatusTicks(s), nullable)
  {
    var s3 :=
      if "poison" in s.statuses
      then AfterHpWrite(s, HpOf(s) - s.statuses["poison"].n)
      else s;
    if "poison" in s.statuses {
      TypedHpWrite(p, s, HpOf(s) - s.statuses["poison"].n, nullable);
    }
    TypedDecay(p, s3, nullable);
  }

  lemma TypedTurnCount(p: Profile, s: CState, n: nat, nullable: set<string>)
    requires Typed(p, s, nullable) && |s.prevActions| > 0
    ensures Typed(p, s.(turnsTaken := n), nullable)
  {
  }

  lemma TypedEndTurn(p: Profile, s: CState, nullable: set<string>)
    requires Typed(p, s, nullable) && |s.prevActions| > 0 && p.maxHp.Some?
    ensures EndTurnReady(s, p)
    ensures Typed(p, AfterEndTurn(s, p), nullable)
  {
    if "regeneration" in s.statuses {
      var s1 := AfterHpWrite(s, Min(HpOf(s) + s.statuses["regeneration"].n, p.maxHp.value));
      TypedHpWrite(p, s, Min(HpOf(s) + s.statuses["regeneration"].n, p.maxHp.value), nullable);
      TypedTurnCount(p, s1, s1.turnsTaken + 1, nullable);
      TypedTicks(p, s1.(turnsTaken := s1.turnsTaken + 1), nullable);
    } else {
      TypedTurnCount(p, s, s.turnsTaken + 1, nullable);
      TypedTicks(p, s.(turnsTaken := s.turnsTaken + 1), nullable);
    }
  }

  // ---------------------------------------------------------------------
  // Beat of death

  predicate BeatsTyped(side: seq<CState>) {
    forall j :: 0 <= j < |side| ==> IntOrAbsent(side[j].permanents, "beat_of_death")
  }

  /** __get_beat_of_death for one roster: the sum of beat_of_death over the
      members that hold it, in roster order. */
  function BeatTotal(side: seq<CState>): (r: int)
    requires BeatsTyped(side)
    ensures (forall j :: 0 <= j < |side| ==> "beat_of_death" !in side[j].permanents) ==> r == 0
    ensures (forall j :: 0 <= j < |side| ==> Amount(side[j].permanents, "beat_of_death") >= 0) ==> r >= 0
    decreases |side|
  {
    if side == [] then 0
    else BeatTotal(side[..|side| - 1]) + Amount(side[|side| - 1].permanents, "beat_of_death")
  }

  /** The total splits over a roster cut in two. */
  lemma {:induction false} BeatTotalSplit(a: seq<CState>, b: seq<CState>)
    requires BeatsTyped(a) && BeatsTyped(b)
    ensures BeatsTyped(a + b)
    ensures BeatTotal(a + b) == BeatTotal(a) + BeatTotal(b)
    decreases |b|
  {
    if b == [] {
      assert a + b == a;
    } else {
      var b' := b[..|b| - 1];
      assert (a + b)[..|a + b| - 1] == a + b';
      BeatTotalSplit(a, b');
    }
  }

  /** Members without beat_of_death contribute nothing; members that hold a
      non-negative amount never make the total negative. */
  lemma {:induction false} BeatTotalBounds(side: seq<CState>)
    requires BeatsTyped(side)
    ensures (forall j :: 0 <= j < |side| ==> "beat_of_death" !in side[j].permanents) ==> BeatTotal(side) == 0
    ensures (forall j :: 0 <= j < |side| ==> Amount(side[j].permanents, "beat_of_death") >= 0) ==> BeatTotal(side) >= 0
    decreases |side|
  {
    if side != [] {
      BeatTotalBounds(side[..|side| - 1]);
    }
  }

  // ---------------------------------------------------------------------
  // Targets

  /** The roster an actor attacks: [lo, hi) of the board. */
  function Enemies(nl: nat, n: nat, a: nat): (r: (nat, nat))
    requires nl <= n && a < n
    ensures r.0 <= r.1 <= n && !(r.0 <= a < r.1)
  {
    if a < nl then (nl, n) else (0, nl)
  }

  /** The living creatures in [lo, hi), in roster order. */
  function Living(b: seq<CState>, lo: nat, hi: nat): (r: seq<nat>)
    requires lo <= hi <= |b|
    ensures forall j :: j in r <==> lo <= j < hi && b[j].alive
    ensures forall x, y :: 0 <= x < y < |r| ==> r[x] < r[y]
    decreases hi - lo
  {
    if lo == hi then []
    else
      var r := Living(b, lo, hi - 1);
      assert forall x :: 0 <= x < |r| ==> r[x] in r;
      r + (if b[hi - 1].alive then [hi - 1] else [])
  }

  /** The living list of a range is empty exactly when no creature in the
      range lives, on any board that agrees with b there. */
  lemma LivingEmpty(b: seq<CState>, b2: seq<CState>, lo: nat, hi: nat)
    requires lo <= hi <= |b| == |b2|
    requires forall j :: lo <= j < hi ==> b2[j] == b[j]
    ensures Living(b2, lo, hi) == [] <==> !exists j :: lo <= j < hi && b[j].alive
  {
    var living := Living(b2, lo, hi);
    if living != [] {
      assert living[0] in living;
    } else {
      forall j | lo <= j < hi ensures !b[j].alive {
        assert j !in living;
      }
    }
  }

  // ---------------------------------------------------------------------
  // The hit loop

  /** One pass of the hit loop: take_hit on the target, and take_damage on
      the actor for positive retaliation. */
  function OneHit(cast: seq<Profile>, b: seq<CState>, t: nat, a: nat, atk: Attack): (r: seq<CState>)
    requires |cast| == |b| && t < |b| && a < |b| && t != a
    requires Hittable(b[t]) && Hittable(b[a])
    ensures |r| == |b| && Hittable(r[t]) && Hittable(r[a])
    ensures forall j :: 0 <= j < |b| && j != t && j != a ==> r[j] == b[j]
  {
    var hit := AfterHit(b[t], cast[t], atk);
    b[t := hit.0][a := if hit.1 > 0 then AfterDamage(b[a], cast[a], hit.1) else b[a]]
  }

  /** `for _ in range(attack.hits)`: each hit goes through take_hit, positive
      retaliation goes to the actor's take_damage, and the loop stops right
      after the hit that leaves the target dead. */
  function HitLoop(cast: seq<Profile>, b: seq<CState>, t: nat, a: nat, atk: Attack, n: int): (r: seq<CState>)
    requires |cast| == |b| && t < |b| && a < |b| && t != a
    requires Hittable(b[t]) && Hittable(b[a])
    ensures |r| == |b| && Hittable(r[t]) && Hittable(r[a])
    ensures forall j :: 0 <= j < |b| && j != t && j != a ==> r[j] == b[j]
    decreases n
  {
    if n <= 0 then b
    else
      var b1 := OneHit(cast, b, t, a, atk);
      if !b1[t].alive then b1 else HitLoop(cast, b1, t, a, atk, n - 1)
  }

  /** One pass of the hit loop, then the rest of it: it stops once the
      target is dead and goes on with one hit less otherwise. */
  lemma HitThenRest(cast: seq<Profile>, b: seq<CState>, t: nat, a: nat, atk: Attack, n: int, rest: int,
                    goal: seq<CState>)
    requires |cast| == |b| && t < |b| && a < |b| && t != a && Hittable(b[t]) && Hittable(b[a])
    requires n > 0 && n == rest + 1
    requires HitLoop(cast, b, t, a, atk, n) == goal
    ensures var b1 := OneHit(cast, b, t, a, atk);
            && (!b1[t].alive ==> b1 == goal)
            && (b1[t].alive ==> HitLoop(cast, b1, t, a, atk, rest) == goal)
  {
    var b1 := OneHit(cast, b, t, a, atk);
    assert HitLoop(cast, b, t, a, atk, n) == if !b1[t].alive then b1 else HitLoop(cast, b1, t, a, atk, n - 1);
  }

  /** One hit keeps every creature typed and leaves the actor's
      bookkeeping alone. */
  lemma OneHitTyped(cast: seq<Profile>, b: seq<CState>, t: nat, a: nat, atk: Attack, nullable: set<string>)
    requires BoardTyped(cast, b, nullable) && t < |b| && a < |b| && t != a
    ensures BoardTyped(cast, OneHit(cast, b, t, a, atk), nullable)
    ensures OneHit(cast, b, t, a, atk)[a].prevActions == b[a].prevActions
    ensures OneHit(cast, b, t, a, atk)[a].turnsTaken == b[a].turnsTaken
  {
    var hit := AfterHit(b[t], cast[t], atk);
    TypedDamage(cast[t], b[t], cast[t], HitDamage(b[t], atk), nullable);
    if hit.1 > 0 {
      TypedDamage(cast[a], b[a], cast[a], hit.1, nullable);
    }
  }

  /** The hit loop keeps every creature typed and leaves the actor's
      bookkeeping alone. */
  lemma {:induction false} HitLoopTyped(cast: seq<Profile>, b: seq<CState>, t: nat, a: nat, atk: Attack, n: int,
                                         nullable: set<string>)
    requires BoardTyped(cast, b, nullable) && t < |b| && a < |b| && t != a
    ensures BoardTyped(cast, HitLoop(cast, b, t, a, atk, n), nullable)
    ensures HitLoop(cast, b, t, a, atk, n)[a].prevActions == b[a].prevActions
    ensures HitLoop(cast, b, t, a, atk, n)[a].turnsTaken == b[a].turnsTaken
    decreases n
  {
    if n > 0 {
      OneHitTyped(cast, b, t, a, atk, nullable);
      var b1 := OneHit(cast, b, t, a, atk);
      if b1[t].alive {
        HitLoopTyped(cast, b1, t, a, atk, n - 1, nullable);
        assert HitLoop(cast, b, t, a, atk, n) == HitLoop(cast, b1, t, a, atk, n - 1);
      } else {
        assert HitLoop(cast, b, t, a, atk, n) == b1;
      }
    }
  }

  /** Retaliation is thorns + flame_barrier of the target, which hits never
      change: when it is not positive the actor is left untouched. */
  lemma {:induction false} NoRetaliationSparesActor(cast: seq<Profile>, b: seq<CState>, t: nat, a: nat,
                                                     atk: Attack, n: int)
    requires |cast| == |b| && t < |b| && a < |b| && t != a && Hittable(b[t]) && Hittable(b[a])
    requires Retaliation(b[t].permanents) <= 0
    ensures HitLoop(cast, b, t, a, atk, n)[a] == b[a]
    decreases n
  {
    if n > 0 {
      var hit := AfterHit(b[t], cast[t], atk);
      CreatureLaws.RetaliationIgnoresDamage(b[t], cast[t], atk);
      assert Retaliation(hit.0.permanents) == Retaliation(b[t].permanents) by {
        assert "thorns" in hit.0.permanents ==> hit.0.permanents["thorns"] == b[t].permanents["thorns"];
        assert "flame_barrier" in hit.0.permanents ==> hit.0.permanents["flame_barrier"] == b[t].permanents["flame_barrier"];
      }
      var b1 := b[t := hit.0];
      assert hit.1 <= 0;
      assert b[t := hit.0][a := b[a]] == b1;
      if hit.0.alive {
        NoRetaliationSparesActor(cast, b1, t, a, atk, n - 1);
      }
    }
  }

  /** What happens to the target does not depend on the actor: a dead actor
      keeps being hit back, and the target takes the same hits. */
  lemma {:induction false} TargetIgnoresActor(cast: seq<Profile>, b: seq<CState>, t: nat, a: nat,
                                               atk: Attack, n: int, x: CState)
    requires |cast| == |b| && t < |b| && a < |b| && t != a && Hittable(b[t]) && Hittable(b[a]) && Hittable(x)
    ensures HitLoop(cast, b, t, a, atk, n)[t] == HitLoop(cast, b[a := x], t, a, atk, n)[t]
    decreases n
  {
    if n > 0 {
      var hit := AfterHit(b[t], cast[t], atk);
      var a1 := if hit.1 > 0 then AfterDamage(b[a], cast[a], hit.1) else b[a];
      var x1 := if hit.1 > 0 then AfterDamage(x, cast[a], hit.1) else x;
      var b1 := b[t := hit.0][a := a1];
      assert b[a := x][t := hit.0][a := x1] == b1[a := x1];
      if hit.0.alive {
        TargetIgnoresActor(cast, b1, t, a, atk, n - 1, x1);
      }
    }
  }

  /** With nothing to soften the hits (no block, buffer, invincible,
      vulnerable or intangible) and enough hp to survive them, n hits of d
      cost exactly n * d hp. */
  lemma {:induction false} HitsAddUp(cast: seq<Profile>, b: seq<CState>, t: nat, a: nat, atk: Attack, n: nat)
    requires |cast| == |b| && t < |b| && a < |b| && t != a && Hittable(b[t]) && Hittable(b[a])
    requires BlockOf(b[t]) == 0 && atk.damage >= 0 && b[t].alive
    requires "buffer" !in b[t].permanents && "invincible" !in b[t].permanents
    requires "vulnerable" !in b[t].statuses && "intangible" !in b[t].statuses
    requires HpOf(b[t]) > n * atk.damage
    ensures HpOf(HitLoop(cast, b, t, a, atk, n)[t]) == HpOf(b[t]) - n * atk.damage
    ensures HitLoop(cast, b, t, a, atk, n)[t].alive
    decreases n
  {
    if n > 0 {
      var hit := AfterHit(b[t], cast[t], atk);
      assert HpOf(hit.0) == HpOf(b[t]) - atk.damage;
      var a1 := if hit.1 > 0 then AfterDamage(b[a], cast[a], hit.1) else b[a];
      var b1 := b[t := hit.0][a := a1];
      assert HpOf(b1[t]) > (n - 1) * atk.damage;
      HitsAddUp(cast, b1, t, a, atk, n - 1);
    }
  }

  // ---------------------------------------------------------------------
  // Status application

  /** An entry as an option: None when the key is absent. */
  function Entry(m: Store, k: string): Option<Val> {
    if k in m then Some(m[k]) else None
  }

  /** `target.statuses[k] += v` for an integer v (absent counts as 0, a sum of
      0 or less removes the entry), `target.statuses[k] = None` otherwise. */
  function ApplyEntry(cur: Option<Val>, v: Val): (r: Option<Val>)
    requires v.Int? && cur.Some? ==> cur.value.Int?
    ensures v.Null? ==> r == Some(Null)
    ensures v.Int? ==> var sum := (if cur.Some? then cur.value.n else 0) + v.n;
                       r == (if sum > 0 then Some(Int(sum)) else None)
  {
    if v.Int? then
      var sum := (match cur case Some(c) => c.n case None => 0) + v.n;
      if sum > 0 then Some(Int(sum)) else None
    else Some(Null)
  }

  /** Every integer the attack adds lands on an integer or absent entry. */
  predicate Addable(m: Store, sts: Store) {
    forall k :: k in sts && sts[k].Int? ==> IntOrAbsent(m, k)
  }

  /** The entry for k once every key of sts outside rest has been applied. */
  function PendingEntry(m: Store, sts: Store, rest: set<string>, k: string): Option<Val>
    requires Addable(m, sts)
  {
    if k in sts && k !in rest then ApplyEntry(Entry(m, k), sts[k]) else Entry(m, k)
  }

  function AppliedExcept(m: Store, sts: Store, rest: set<string>): Store
    requires Addable(m, sts)
  {
    map k | k in m.Keys + sts.Keys && PendingEntry(m, sts, rest, k).Some? :: PendingEntry(m, sts, rest, k).value
  }

  /** The statuses of a target after the attack's statuses are applied. */
  function Applied(m: Store, sts: Store): (r: Store)
    requires Addable(m, sts)
    ensures forall k :: k !in sts ==> Entry(r, k) == Entry(m, k)
    ensures forall k :: k in sts && sts[k].Null? ==> k in r && r[k] == Null
    ensures forall k :: k in sts && sts[k].Int? ==>
              (k in r <==> Amount(m, k) + sts[k].n > 0) && (k in r ==> r[k] == Int(Amount(m, k) + sts[k].n))
  {
    AppliedExcept(m, sts, {})
  }

  /** Applying debilitate's statuses twice gives 4 of each. */
  lemma DebilitateTwice(m: Store)
    requires IntOrAbsent(m, "weak") && IntOrAbsent(m, "vulnerable") && IntOrAbsent(m, "frail")
    requires "weak" !in m && "vulnerable" !in m && "frail" !in m
    ensures var sts := Heart.Debilitate().statuses.value;
            Addable(m, sts) && Addable(Applied(m, sts), sts)
            && var twice := Applied(Applied(m, sts), sts);
               twice["weak"] == Int(4) && twice["vulnerable"] == Int(4) && twice["frail"] == Int(4)
  {
  }

  lemma AppliedExceptStep(m: Store, sts: Store, rest: set<string>, k: string)
    requires Addable(m, sts) && k in rest && rest <= sts.Keys
    ensures Addable(AppliedExcept(m, sts, rest), sts)
    ensures Entry(AppliedExcept(m, sts, rest), k) == Entry(m, k)
    ensures var before := AppliedExcept(m, sts, rest);
            var after := AppliedExcept(m, sts, rest - {k});
            match ApplyEntry(Entry(before, k), sts[k])
            case Some(w) => after == before[k := w]
            case None => after == before - {k}
  {
    var before := AppliedExcept(m, sts, rest);
    var after := AppliedExcept(m, sts, rest - {k});
    match ApplyEntry(Entry(before, k), sts[k])
    case Some(w) => assert after == before[k := w];
    case None => assert after == before - {k};
  }

  lemma AppliedExceptEnds(m: Store, sts: Store)
    requires Addable(m, sts)
    ensures AppliedExcept(m, sts, sts.Keys) == m
  {
    assert AppliedExcept(m, sts, sts.Keys) == m;
  }

  /** Applying typed statuses keeps the target typed. */
  lemma TypedApplied(p: Profile, s: CState, atk: Attack, nullable: set<string>)
    requires Typed(p, s, nullable) && AttackTyped(atk, nullable) && atk.statuses.Some?
    ensures Addable(s.statuses, atk.statuses.value)
    ensures Typed(p, s.(statuses := Applied(s.statuses, atk.statuses.value)), nullable)
  {
  }

  /** The attack's statuses land on target t when the attack carries a
      non-empty statuses dict. */
  function StatusesLanded(cast: seq<Profile>, b: seq<CState>, t: nat, atk: Attack, ghost nullable: set<string>)
    : (r: seq<CState>)
    requires BoardTyped(cast, b, nullable) && t < |b| && AttackTyped(atk, nullable)
    ensures BoardTyped(cast, r, nullable) && r[..t] == b[..t] && r[t+1..] == b[t+1..]
    ensures r[t].(statuses := b[t].statuses) == b[t]
  {
    if atk.statuses.Some? && |atk.statuses.value| > 0 then
      TypedApplied(cast[t], b[t], atk, nullable);
      b[t := b[t].(statuses := Applied(b[t].statuses, atk.statuses.value))]
    else b
  }

  // ---------------------------------------------------------------------
  // One creature's turn

  /** The loop over targets: the hit loop, then the statuses, per target. */
  function Strike(cast: seq<Profile>, b: seq<CState>, a: nat, atk: Attack, ts: seq<nat>,
                  ghost nullable: set<string>): (r: seq<CState>)
    requires BoardTyped(cast, b, nullable) && AttackTyped(atk, nullable) && a < |b|
    requires forall j :: j in ts ==> j < |b| && j != a
    ensures BoardTyped(cast, r, nullable)
    ensures r[a].prevActions == b[a].prevActions && r[a].turnsTaken == b[a].turnsTaken
    ensures forall j :: 0 <= j < |b| && j != a && j !in ts ==> r[j] == b[j]
    decreases |ts|
  {
    if ts == [] then b
    else
      var t := ts[0];
      assert t in ts;
      assert forall j :: j in ts[1..] ==> j in ts;
      HitLoopTyped(cast, b, t, a, atk, atk.hits, nullable);
      var b1 := HitLoop(cast, b, t, a, atk, atk.hits);
      var b2 := StatusesLanded(cast, b1, t, atk, nullable);
      assert b2[a] == b1[a] by {
        if a < t { assert b2[..t][a] == b1[..t][a]; } else { assert b2[t+1..][a - t - 1] == b1[t+1..][a - t - 1]; }
      }
      assert forall j :: 0 <= j < |b| && j != t ==> b2[j] == b1[j] by {
        forall j | 0 <= j < |b| && j != t ensures b2[j] == b1[j] {
          if j < t { assert b2[..t][j] == b1[..t][j]; } else { assert b2[t+1..][j - t - 1] == b1[t+1..][j - t - 1]; }
        }
      }
      Strike(cast, b2, a, atk, ts[1..], nullable)
  }

  /** Target ts[i] of the loop over the targets: it is a hittable creature
      other than the actor, and the hit loop against it keeps the board
      typed. */
  lemma StrikeFirst(cast: seq<Profile>, b: seq<CState>, a: nat, atk: Attack, ts: seq<nat>, i: nat,
                    nullable: set<string>)
    requires BoardTyped(cast, b, nullable) && a < |b| && i < |ts|
    requires forall j :: j in ts[i..] ==> j < |b| && j != a
    ensures ts[i] < |b| && ts[i] != a && Hittable(b[ts[i]]) && Hittable(b[a])
    ensures BoardTyped(cast, HitLoop(cast, b, ts[i], a, atk, atk.hits), nullable)
  {
    assert ts[i] in ts[i..];
    HitLoopTyped(cast, b, ts[i], a, atk, atk.hits, nullable);
  }

  /** After the hit loop and the status loop against ts[i], what is left of
      the loop over the targets is the rest of them. */
  lemma StrikeRest(cast: seq<Profile>, b: seq<CState>, a: nat, atk: Attack, ts: seq<nat>, i: nat,
                   nullable: set<string>, b1: seq<CState>, b2: seq<CState>, next: nat, goal: seq<CState>)
    requires BoardTyped(cast, b, nullable) && AttackTyped(atk, nullable) && a < |b| && i < |ts| && next == i + 1
    requires forall j :: j in ts[i..] ==> j < |b| && j != a
    requires Strike(cast, b, a, atk, ts[i..], nullable) == goal
    requires ts[i] < |b| && ts[i] != a
    requires b1 == HitLoop(cast, b, ts[i], a, atk, atk.hits) && BoardTyped(cast, b1, nullable)
    requires b2 == StatusesLanded(cast, b1, ts[i], atk, nullable)
    ensures BoardTyped(cast, b2, nullable)
    ensures forall j :: j in ts[next..] ==> j < |b2| && j != a
    ensures Strike(cast, b2, a, atk, ts[next..], nullable) == goal
  {
    var rest := ts[i..];
    assert rest[0] == ts[i] && rest[1..] == ts[next..];
    assert forall j :: j in rest[1..] ==> j in rest;
    assert Strike(cast, b, a, atk, rest, nullable) == Strike(cast, b2, a, atk, rest[1..], nullable);
  }

  /** The beat-of-death damage the actor takes, as written: a left actor
      takes the right total when it is positive; a right actor takes the
      right total too, but only when the left total is positive. */
  function BeatDamage(isLeft: bool, leftBeat: int, rightBeat: int): (r: Option<int>)
    ensures r.Some? ==> r.value == rightBeat
    ensures isLeft ==> (r.Some? <==> rightBeat > 0)
    ensures !isLeft ==> (r.Some? <==> leftBeat > 0)
  {
    if isLeft && rightBeat > 0 then Some(rightBeat)
    else if !isLeft && leftBeat > 0 then Some(rightBeat)
    else None
  }

  /** The beat-of-death branch for a right-roster actor passes the right
      roster's own total: with the Heart alone on the left (beat 1) and a
      right roster without beat_of_death, the right actor takes 0 damage
      instead of 1. */
  lemma RightActorBeatUsesOwnSide()
    ensures BeatDamage(false, 1, 0) == Some(0)
    ensures BeatDamage(true, 0, 2) == Some(2)
    ensures BeatDamage(false, 0, 2).None?
  {
  }

  /** Both rosters' beat_of_death entries are integers on a typed board. */
  lemma BoardBeats(cast: seq<Profile>, b: seq<CState>, nl: nat, nullable: set<string>)
    requires BoardTyped(cast, b, nullable) && nl <= |b|
    ensures BeatsTyped(b[..nl]) && BeatsTyped(b[nl..])
  {
    assert forall j :: 0 <= j < nl ==> b[..nl][j] == b[j];
    assert forall j :: 0 <= j < |b| - nl ==> b[nl..][j] == b[nl + j];
  }

  /** The end of a turn that had targets: the strikes, the beat-of-death
      damage, then end_turn_resolution. */
  function Finish(cast: seq<Profile>, b: seq<CState>, a: nat, atk: Attack, ts: seq<nat>,
                  beat: Option<int>, ghost nullable: set<string>): (r: seq<CState>)
    requires BoardTyped(cast, b, nullable) && AttackTyped(atk, nullable) && a < |b|
    requires forall j :: j in ts ==> j < |b| && j != a
    requires |b[a].prevActions| > 0 && cast[a].maxHp.Some?
    ensures BoardTyped(cast, r, nullable)
    ensures r[a].turnsTaken == b[a].turnsTaken + 1
    ensures |r| == |b| && forall j :: 0 <= j < |b| && j != a && j !in ts ==> r[j] == b[j]
  {
    var b3 := Strike(cast, b, a, atk, ts, nullable);
    var b4 :=
      if beat.Some? then
        TypedDamage(cast[a], b3[a], cast[a], beat.value, nullable);
        b3[a := AfterDamage(b3[a], cast[a], beat.value)]
      else b3;
    TypedEndTurn(cast[a], b4[a], nullable);
    b4[a := AfterEndTurn(b4[a], cast[a])]
  }

  /** The part of a turn after start_turn_resolution, for a living actor:
      the beat totals are read, the action is taken, and with no living enemy
      the turn ends there. */
  function Act(cast: seq<Profile>, nl: nat, b: seq<CState>, a: nat, d: Draw,
               ghost nullable: set<string>): (r: seq<CState>)
    requires BoardTyped(cast, b, nullable) && nl <= |b| && a < |b| && b[a].alive
    ensures BoardTyped(cast, r, nullable)
    ensures var range := Enemies(nl, |b|, a);
            r[a].turnsTaken == b[a].turnsTaken
                               + (if exists j :: range.0 <= j < range.1 && b[j].alive then 2 else 1)
  {
    BoardBeats(cast, b, nl, nullable);
    var lb := BeatTotal(b[..nl]);
    var rb := BeatTotal(b[nl..]);
    TypedAction(cast[a], b[a], d, nullable);
    var act := AfterAction(cast[a], b[a], d);
    var b2 := b[a := act.0];
    assert BoardTyped(cast, b2, nullable);
    var range := Enemies(nl, |b|, a);
    var living := Living(b2, range.0, range.1);
    LivingEmpty(b, b2, range.0, range.1);
    if living == [] then b2
    else Finish(cast, b2, a, act.1, Targets(living, act.1, d), BeatDamage(a < nl, lb, rb), nullable)
  }

  /** A turn changes only the actor and the enemy roster: every other slot,
      the actor's own teammates included, is left as it was. */
  lemma ActFrame(cast: seq<Profile>, nl: nat, b: seq<CState>, a: nat, d: Draw, nullable: set<string>)
    requires BoardTyped(cast, b, nullable) && nl <= |b| && a < |b| && b[a].alive
    ensures var r := Act(cast, nl, b, a, d, nullable);
            var range := Enemies(nl, |b|, a);
            |r| == |b| && forall j :: 0 <= j < |b| && j != a && !(range.0 <= j < range.1) ==> r[j] == b[j]
  {
    BoardBeats(cast, b, nl, nullable);
    var lb := BeatTotal(b[..nl]);
    var rb := BeatTotal(b[nl..]);
    TypedAction(cast[a], b[a], d, nullable);
    var act := AfterAction(cast[a], b[a], d);
    var b2 := b[a := act.0];
    assert BoardTyped(cast, b2, nullable);
    var range := Enemies(nl, |b|, a);
    var living := Living(b2, range.0, range.1);
    ActSteps(cast, nl, b, a, d, nullable, lb, rb, act, b2, living);
    if living != [] {
      var ts := Targets(living, act.1, d);
      assert forall j :: j in ts ==> range.0 <= j < range.1;
    }
  }

  /** The board after take_action in an Act is typed, and so is the
      attack; the history is non-empty for end_turn_resolution. */
  lemma ActTyped(cast: seq<Profile>, b: seq<CState>, a: nat, d: Draw, nullable: set<string>,
                 act: (CState, Attack), b2: seq<CState>)
    requires BoardTyped(cast, b, nullable) && a < |b| && b[a].alive
    requires act == AfterAction(cast[a], b[a], d) && b2 == b[a := act.0]
    ensures BoardTyped(cast, b2, nullable) && AttackTyped(act.1, nullable)
    ensures |b2[a].prevActions| > 0 && cast[a].maxHp.Some?
  {
    TypedAction(cast[a], b[a], d, nullable);
  }

  /** Act spelled out on the values a caller has computed: the beat
      totals, the action, the board after it and the living enemies. */
  lemma ActSteps(cast: seq<Profile>, nl: nat, b: seq<CState>, a: nat, d: Draw, nullable: set<string>,
                 lb: int, rb: int, act: (CState, Attack), b2: seq<CState>, living: seq<nat>)
    requires BoardTyped(cast, b, nullable) && nl <= |b| && a < |b| && b[a].alive
    requires BeatsTyped(b[..nl]) && BeatsTyped(b[nl..])
    requires lb == BeatTotal(b[..nl]) && rb == BeatTotal(b[nl..])
    requires act == AfterAction(cast[a], b[a], d) && b2 == b[a := act.0]
    requires BoardTyped(cast, b2, nullable) && AttackTyped(act.1, nullable)
    requires |b2[a].prevActions| > 0 && cast[a].maxHp.Some?
    requires living == Living(b2, Enemies(nl, |b|, a).0, Enemies(nl, |b|, a).1)
    ensures living == [] ==> Act(cast, nl, b, a, d, nullable) == b2
    ensures living != [] ==>
              && (forall j :: j in Targets(living, act.1, d) ==> j < |b2| && j != a)
              && Act(cast, nl, b, a, d, nullable)
                 == Finish(cast, b2, a, act.1, Targets(living, act.1, d), BeatDamage(a < nl, lb, rb), nullable)
  {
    var range := Enemies(nl, |b|, a);
    if living != [] {
      TargetsApart(b2, range.0, range.1, a, act.1, d);
    }
  }

  /** The targets picked among the living creatures of a range that does
      not hold the actor are board slots other than the actor's. */
  lemma TargetsApart(b: seq<CState>, lo: nat, hi: nat, a: nat, atk: Attack, d: Draw)
    requires lo <= hi <= |b| && !(lo <= a < hi) && |Living(b, lo, hi)| > 0
    ensures forall j :: j in Targets(Living(b, lo, hi), atk, d) ==> j < |b| && j != a
  {
  }

  /** The targets of an attack: every living enemy for a multi-target
      attack, else the one the draw picks. */
  function Targets(living: seq<nat>, atk: Attack, d: Draw): (ts: seq<nat>)
    requires |living| > 0
    ensures forall j :: j in ts ==> j in living
    ensures atk.multiTarget ==> ts == living
    ensures !atk.multiTarget ==> |ts| == 1
  {
    if atk.multiTarget then living else [living[d.target % |living|]]
  }

  /** resolve_one_creature_turn for the creature at index a: a creature
      that start_turn_resolution reports dead does nothing more. */
  function Resolve(cast: seq<Profile>, nl: nat, b: seq<CState>, a: nat, d: Draw,
                   ghost nullable: set<string>): (r: seq<CState>)
    requires BoardTyped(cast, b, nullable) && nl <= |b| && a < |b|
    ensures BoardTyped(cast, r, nullable)
  {
    TypedStart(cast[a], b[a], nullable);
    var b1 := b[a := AfterStartTurn(b[a])];
    if !b1[a].alive then b1 else Act(cast, nl, b1, a, d, nullable)
  }

  /** What one turn adds to the actor's turns_taken: nothing when
      start_turn_resolution finds it dead, 1 (take_action alone) when no
      enemy is alive, 2 (take_action and end_turn_resolution) otherwise. */
  lemma ResolveTurnCount(cast: seq<Profile>, nl: nat, b: seq<CState>, a: nat, d: Draw, nullable: set<string>)
    requires BoardTyped(cast, b, nullable) && nl <= |b| && a < |b|
    ensures var range := Enemies(nl, |b|, a);
            Resolve(cast, nl, b, a, d, nullable)[a].turnsTaken
            == b[a].turnsTaken + (if !b[a].alive then 0
                                  else if exists j :: range.0 <= j < range.1 && b[j].alive then 2 else 1)
  {
    var b1 := b[a := AfterStartTurn(b[a])];
    var range := Enemies(nl, |b|, a);
    assert b1[a].alive == b[a].alive && b1[a].turnsTaken == b[a].turnsTaken;
    assert forall j :: range.0 <= j < range.1 ==> b1[j] == b[j];
  }

  /** A Heart that found a living enemy on each of its k turns so far has
      turns_taken 2k (ResolveTurnCount, from 0 at construction), so it buffs
      on its turns 3, 6, 9, ... counting from 0, not on every third
      turns_taken value. */
  lemma HeartBattleCadence(k: nat, prev: seq<string>, coin: bool)
    requires k == 0 || |prev| > 0
    ensures Heart.Pick(2 * k, prev, coin) == "buff" <==> k > 0 && k % 3 == 0
  {
  }

  // ---------------------------------------------------------------------
  // The stop check, rounds and the battle

  /** (keep_simulating, left_won) as _keep_simulating returns it. */
  datatype Verdict = Verdict(keep: bool, leftWon: Option<bool>)

  /** How many of the creatures in slots lo .. hi-1 are alive. */
  function LivingCount(b: seq<CState>, lo: nat, hi: nat): (n: nat)
    requires lo <= hi <= |b|
    ensures n <= hi - lo
    decreases hi - lo
  {
    if lo == hi then 0 else (if b[hi - 1].alive then 1 else 0) + LivingCount(b, lo, hi - 1)
  }

  /** `all(not creature.alive for creature in ...)` over slots lo .. hi-1. */
  predicate AllDead(b: seq<CState>, lo: nat, hi: nat)
    requires lo <= hi <= |b|
  {
    LivingCount(b, lo, hi) == 0
  }

  /** AllDead holds exactly when no slot in the range holds a living
      creature. */
  lemma {:induction false} AllDeadMeans(b: seq<CState>, lo: nat, hi: nat)
    requires lo <= hi <= |b|
    ensures AllDead(b, lo, hi) <==> forall j :: lo <= j < hi ==> !b[j].alive
    decreases hi - lo
  {
    if lo < hi {
      AllDeadMeans(b, lo, hi - 1);
    }
  }

  /** _keep_simulating: the right roster is checked first. */
  function Check(b: seq<CState>, nl: nat): (v: Verdict)
    requires nl <= |b|
    ensures !v.keep <==> v.leftWon.Some?
    ensures nl == |b| ==> v == Verdict(false, Some(true))
  {
    if AllDead(b, nl, |b|) then Verdict(false, Some(true))
    else if AllDead(b, 0, nl) then Verdict(false, Some(false))
    else Verdict(true, None)
  }

  /** The verdicts: a stop always names a winner; the left side wins exactly
      when every right creature is dead, so a double wipe-out and an empty
      right roster are left wins; the right side wins exactly when every
      left creature is dead and some right creature lives. */
  lemma CheckVerdicts(b: seq<CState>, nl: nat)
    requires nl <= |b|
    ensures !Check(b, nl).keep <==> Check(b, nl).leftWon.Some?
    ensures Check(b, nl).leftWon == Some(true) <==> AllDead(b, nl, |b|)
    ensures Check(b, nl).leftWon == Some(false) <==> !AllDead(b, nl, |b|) && AllDead(b, 0, nl)
    ensures nl == |b| ==> Check(b, nl) == Verdict(false, Some(true))
    ensures Check(b, nl).keep <==> (exists j :: 0 <= j < nl && b[j].alive) && (exists j :: nl <= j < |b| && b[j].alive)
  {
    AllDeadMeans(b, 0, nl);
    AllDeadMeans(b, nl, |b|);
  }

  /** Where a run of roster slots got to: the board, the draws used so far
      and the last verdict. */
  datatype Progress = Progress(board: seq<CState>, used: nat, verdict: Verdict)

  /** One slot of a roster loop in one_battle: a living creature takes its
      turn with the next draw, then the verdict is taken. */
  function Slot(cast: seq<Profile>, nl: nat, b: seq<CState>, i: nat, k: nat, draws: nat -> Draw,
                ghost nullable: set<string>): (r: Progress)
    requires BoardTyped(cast, b, nullable) && nl <= |b| && i < |b|
    ensures BoardTyped(cast, r.board, nullable)
    ensures r.verdict == Check(r.board, nl)
    ensures r.used == if b[i].alive then k + 1 else k
    ensures !b[i].alive ==> r.board == b
  {
    var b1 := if b[i].alive then Resolve(cast, nl, b, i, draws(k), nullable) else b;
    Progress(b1, if b[i].alive then k + 1 else k, Check(b1, nl))
  }

  /** The loop over one roster's slots i .. hi-1: a stop verdict breaks it. */
  function SideRun(cast: seq<Profile>, nl: nat, b: seq<CState>, i: nat, hi: nat, k: nat,
                   draws: nat -> Draw, v: Verdict, ghost nullable: set<string>): (r: Progress)
    requires BoardTyped(cast, b, nullable) && nl <= |b| && i <= hi <= |b|
    ensures BoardTyped(cast, r.board, nullable)
    ensures i < hi ==> r.verdict == Check(r.board, nl)
    ensures i == hi ==> r == Progress(b, k, v)
    decreases hi - i
  {
    if i == hi then Progress(b, k, v)
    else
      var p := Slot(cast, nl, b, i, k, draws, nullable);
      if !p.verdict.keep then p
      else SideRun(cast, nl, p.board, i + 1, hi, p.used, draws, p.verdict, nullable)
  }

  /** One slot of a roster loop, then the rest of the loop: it stops at a
      stop verdict and goes on from the next slot otherwise. */
  lemma SlotThenRest(cast: seq<Profile>, nl: nat, b: seq<CState>, i: nat, hi: nat, k: nat,
                     draws: nat -> Draw, v: Verdict, nullable: set<string>, p: Progress, next: nat, goal: Progress)
    requires BoardTyped(cast, b, nullable) && nl <= |b| && i < hi <= |b| && next == i + 1
    requires SideRun(cast, nl, b, i, hi, k, draws, v, nullable) == goal
    requires p == Slot(cast, nl, b, i, k, draws, nullable)
    ensures BoardTyped(cast, p.board, nullable) && |p.board| == |b|
    ensures !p.verdict.keep ==> p == goal
    ensures p.verdict.keep ==> SideRun(cast, nl, p.board, next, hi, p.used, draws, p.verdict, nullable) == goal
  {
  }

  /** One pass of the outer loop: the left roster's slots, then the right
      roster's slots (which run even after the left loop stopped). */
  function Round(cast: seq<Profile>, nl: nat, b: seq<CState>, k: nat, draws: nat -> Draw, v: Verdict,
                 ghost nullable: set<string>): (r: Progress)
    requires BoardTyped(cast, b, nullable) && nl <= |b|
    ensures BoardTyped(cast, r.board, nullable)
    ensures |b| > 0 ==> r.verdict == Check(r.board, nl)
  {
    var p := SideRun(cast, nl, b, 0, nl, k, draws, v, nullable);
    SideRun(cast, nl, p.board, nl, |b|, p.used, draws, p.verdict, nullable)
  }

  /** A battle end agrees with its final board: a named winner is the one
      the stop check gives on that board. */
  predicate WinnerMatches(e: BattleEnd, nl: nat, n: nat) {
    |e.board| == n && nl <= n && (e.winner.Some? ==> e.winner == Check(e.board, nl).leftWon)
  }

  /** How a battle ended: the winner (None when the round budget ran out),
      the final board, the draws used and the turn counter. */
  datatype BattleEnd = BattleEnd(winner: Option<bool>, board: seq<CState>, used: nat, turn: nat)

  /** one_battle's outer loop from turn counter `turn`, with at most `fuel`
      rounds: it stops on a stop verdict or when the budget is spent. */
  function Battle(cast: seq<Profile>, nl: nat, b: seq<CState>, k: nat, draws: nat -> Draw, v: Verdict,
                  fuel: nat, turn: nat, nullable: set<string>): (r: BattleEnd)
    requires BoardTyped(cast, b, nullable) && nl <= |b|
    ensures turn <= r.turn <= turn + fuel
    decreases fuel, 1
  {
    if !v.keep then BattleEnd(v.leftWon, b, k, turn)
    else if fuel == 0 then BattleEnd(None, b, k, turn)
    else NextRound(cast, nl, b, k, draws, v, fuel, turn, nullable)
  }

  /** A round of a battle that goes on, which advances the turn counter,
      then the rest of the battle. */
  function NextRound(cast: seq<Profile>, nl: nat, b: seq<CState>, k: nat, draws: nat -> Draw, v: Verdict,
                     fuel: nat, turn: nat, nullable: set<string>): (r: BattleEnd)
    requires BoardTyped(cast, b, nullable) && nl <= |b| && fuel > 0
    ensures turn < r.turn <= turn + fuel
    decreases fuel, 0
  {
    var p := Round(cast, nl, b, k, draws, v, nullable);
    Battle(cast, nl, p.board, p.used, draws, p.verdict, fuel - 1, turn + 1, nullable)
  }

  /** One round of a battle that goes on, then the rest of it with one
      round less and the next turn. */
  lemma BattleStep(cast: seq<Profile>, nl: nat, b: seq<CState>, k: nat, draws: nat -> Draw, v: Verdict,
                   fuel: nat, turn: nat, nullable: set<string>, p: Progress, rest: nat, turn': nat)
    requires BoardTyped(cast, b, nullable) && nl <= |b| && v.keep
    requires fuel == rest + 1 && turn' == turn + 1
    requires p == Round(cast, nl, b, k, draws, v, nullable)
    ensures BoardTyped(cast, p.board, nullable) && nl <= |p.board|
    ensures Battle(cast, nl, b, k, draws, v, fuel, turn, nullable)
            == Battle(cast, nl, p.board, p.used, draws, p.verdict, rest, turn', nullable)
  {
    assert Battle(cast, nl, b, k, draws, v, fuel, turn, nullable)
        == Battle(cast, nl, p.board, p.used, draws, p.verdict, fuel - 1, turn + 1, nullable)
    by {
      assert Battle(cast, nl, b, k, draws, v, fuel, turn, nullable)
          == NextRound(cast, nl, b, k, draws, v, fuel, turn, nullable);
    }
  }

  /** The same step, stated for a caller that has already counted the round
      off its budget and its turn counter. */
  lemma RoundThenRest(cast: seq<Profile>, nl: nat, b: seq<CState>, k: nat, draws: nat -> Draw, v: Verdict,
                      fuel: nat, turn: nat, nullable: set<string>,
                      b': seq<CState>, k': nat, v': Verdict, rest: nat, turn': nat, goal: BattleEnd)
    requires BoardTyped(cast, b, nullable) && nl <= |b| && v.keep
    requires fuel == rest + 1 && turn' == turn + 1
    requires Progress(b', k', v') == Round(cast, nl, b, k, draws, v, nullable)
    requires Battle(cast, nl, b, k, draws, v, fuel, turn, nullable) == goal
    ensures BoardTyped(cast, b', nullable) && nl <= |b'|
    ensures Battle(cast, nl, b', k', draws, v', rest, turn', nullable) == goal
  {
    BattleStep(cast, nl, b, k, draws, v, fuel, turn, nullable, Progress(b', k', v'), rest, turn');
  }

  /** The first round of a battle that goes on, by what it leaves: a typed
      board of the same size, a verdict taken on it, and the rest of the
      battle played from there with one round less and the next turn. */
  lemma FirstRound(cast: seq<Profile>, nl: nat, b: seq<CState>, k: nat, draws: nat -> Draw, v: Verdict,
                   fuel: nat, turn: nat, nullable: set<string>, rest: nat, turn': nat) returns (p: Progress)
    requires BoardTyped(cast, b, nullable) && nl <= |b| && |b| > 0 && v.keep
    requires fuel == rest + 1 && turn' == turn + 1
    ensures BoardTyped(cast, p.board, nullable) && |p.board| == |b| && p.verdict == Check(p.board, nl)
    ensures Battle(cast, nl, b, k, draws, v, fuel, turn, nullable)
            == Battle(cast, nl, p.board, p.used, draws, p.verdict, rest, turn', nullable)
  {
    p := Round(cast, nl, b, k, draws, v, nullable);
    BattleStep(cast, nl, b, k, draws, v, fuel, turn, nullable, p, rest, turn');
  }

  /** Every round ends with the stop check, so a battle that ends with a
      winner names the one the stop check gives on its final board. */
  lemma {:induction false} BattleWinner(cast: seq<Profile>, nl: nat, b: seq<CState>, k: nat, draws: nat -> Draw,
                                        v: Verdict, fuel: nat, turn: nat, nullable: set<string>)
    requires BoardTyped(cast, b, nullable) && nl <= |b| && |b| > 0 && (v.keep || v == Check(b, nl))
    ensures WinnerMatches(Battle(cast, nl, b, k, draws, v, fuel, turn, nullable), nl, |b|)
    decreases fuel
  {
    if !v.keep {
      assert Battle(cast, nl, b, k, draws, v, fuel, turn, nullable) == BattleEnd(v.leftWon, b, k, turn);
    } else if fuel == 0 {
      assert Battle(cast, nl, b, k, draws, v, fuel, turn, nullable) == BattleEnd(None, b, k, turn);
    } else {
      var rest: nat, turn' := fuel - 1, turn + 1;
      var p := FirstRound(cast, nl, b, k, draws, v, fuel, turn, nullable, rest, turn');
      BattleWinner(cast, nl, p.board, p.used, draws, p.verdict, rest, turn', nullable);
    }
  }

  /** So a battle the left side wins ends with every right creature dead, and
      one the right side wins ends with every left creature dead and some
      right creature alive. */
  lemma BattleWinnerMeaning(cast: seq<Profile>, nl: nat, b: seq<CState>, k: nat, draws: nat -> Draw,
                            v: Verdict, fuel: nat, nullable: set<string>)
    requires BoardTyped(cast, b, nullable) && nl <= |b| && |b| > 0 && v.keep
    ensures var e := Battle(cast, nl, b, k, draws, v, fuel, 0, nullable);
            |e.board| == |b|
            && (e.winner == Some(true) ==> AllDead(e.board, nl, |b|))
            && (e.winner == Some(false) ==> AllDead(e.board, 0, nl) && !AllDead(e.board, nl, |b|))
  {
    var e := Battle(cast, nl, b, k, draws, v, fuel, 0, nullable);
    BattleWinner(cast, nl, b, k, draws, v, fuel, 0, nullable);
    CheckVerdicts(e.board, nl);
  }

  /** With both rosters empty the loop never stops. */
  lemma {:induction false} EmptyRostersNeverFinish(cast: seq<Profile>, b: seq<CState>, k: nat, draws: nat -> Draw,
                                                   fuel: nat, turn: nat, nullable: set<string>)
    requires BoardTyped(cast, b, nullable) && |b| == 0
    ensures Battle(cast, 0, b, k, draws, Verdict(true, Some(true)), fuel, turn, nullable).winner.None?
    decreases fuel
  {
    if fuel > 0 {
      EmptyRostersNeverFinish(cast, b, k, draws, fuel - 1, turn + 1, nullable);
    }
  }
}
