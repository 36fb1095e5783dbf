/** The Simulator object: two rosters of creature objects that one battle
    mutates in place, a turn counter, and the per-turn and per-battle loops,
    each proved against the board functions of SimulatorRules. */
module Simulation {
  import opened Base
  import opened Modifiers
  import opened Attacks
  import opened Creatures
  import opened Actions
  import opened SimulatorRules

  class Simulator {
    const left: seq<Creature>
    const right: seq<Creature>
    var currentTurn: nat

    /** Both rosters, left first: slot j of the board is All()[j]. */
    function All(): seq<Creature> {
      left + right
    }

    /** Every creature is a separate object with its own two stores. */
    predicate Valid() {
      && (forall j :: 0 <= j < |All()| ==> All()[j].Valid())
      && (forall i, j :: 0 <= i < |All()| && 0 <= j < |All()| && i != j ==>
            All()[i] != All()[j] && All()[i].statuses != All()[j].statuses
            && All()[i].permanents != All()[j].permanents)
    }

    /** The objects a battle may change. */
    function Objects(): (os: set<object>)
      ensures forall j :: 0 <= j < |All()| ==>
                All()[j] in os && All()[j].statuses in os && All()[j].permanents in os
      ensures this !in os
    {
      assert forall j :: 0 <= j < |All()| ==> All()[j] in All();
      (set c | c in All() :: c as object)
      + (set c | c in All() :: c.statuses as object)
      + (set c | c in All() :: c.permanents as object)
    }

    /** The board: every creature's state, left roster first. */
    function Board(): (b: seq<CState>)
      reads Objects()
      ensures |b| == |All()|
    {
      seq(|All()|, j requires 0 <= j < |All()| reads Objects() => All()[j].State())
    }

    /** The creatures' fixed profiles, in board order. */
    function Cast(): (p: seq<Profile>)
      ensures |p| == |All()|
    {
      seq(|All()|, j requires 0 <= j < |All()| => All()[j].Fixed())
    }

    constructor (left: seq<Creature>, right: seq<Creature>)
      ensures this.left == left && this.right == right && currentTurn == 0
    {
      this.left := left;
      this.right := right;
      currentTurn := 0;
    }

    /** A call that changed only creature a's objects changed only slot a of
        the board. */
    twostate lemma OnlySlotChanged(a: nat)
      requires Valid() && a < |All()|
      requires forall j :: 0 <= j < |All()| && j != a ==>
                 unchanged(All()[j], All()[j].statuses, All()[j].permanents)
      ensures Board() == old(Board())[a := All()[a].State()]
    {
      assert forall j :: 0 <= j < |All()| && j != a ==> Board()[j] == old(Board())[j];
    }

    method StartTurnAt(a: nat) returns (stillAlive: bool)
      requires Valid() && a < |All()|
      modifies All()[a]
      ensures Board() == old(Board())[a := AfterStartTurn(old(Board())[a])]
      ensures stillAlive == Board()[a].alive
    {
      var c := All()[a];
      stillAlive := c.StartTurnResolution();
      OnlySlotChanged(a);
    }

    method TakeActionAt(a: nat, d: Draw) returns (atk: Attack)
      requires Valid() && a < |All()| && ActionReady(Cast()[a], Board()[a])
      modifies All()[a], All()[a].statuses, All()[a].permanents
      ensures var act := AfterAction(Cast()[a], old(Board())[a], d);
              Board() == old(Board())[a := act.0] && atk == act.1
    {
      var c := All()[a];
      atk := TakeAction(c, d);
      OnlySlotChanged(a);
    }

    method TakeHitAt(t: nat, atk: Attack) returns (outgoing: int)
      requires Valid() && t < |All()| && Hittable(Board()[t])
      modifies All()[t], All()[t].permanents
      ensures var hit := AfterHit(old(Board())[t], Cast()[t], atk);
              Board() == old(Board())[t := hit.0] && outgoing == hit.1
    {
      var c := All()[t];
      outgoing := c.TakeHit(atk);
      OnlySlotChanged(t);
    }

    method TakeDamageAt(a: nat, damage: int)
      requires Valid() && a < |All()| && Hittable(Board()[a])
      modifies All()[a], All()[a].permanents
      ensures Board() == old(Board())[a := AfterDamage(old(Board())[a], Cast()[a], damage)]
    {
      var c := All()[a];
      c.TakeDamage(damage);
      OnlySlotChanged(a);
    }

    method EndTurnAt(a: nat)
      requires Valid() && a < |All()| && EndTurnReady(Board()[a], Cast()[a])
      modifies All()[a], All()[a].statuses, All()[a].permanents
      ensures Board() == old(Board())[a := AfterEndTurn(old(Board())[a], Cast()[a])]
    {
      var c := All()[a];
      var _ := c.EndTurnResolution();
      OnlySlotChanged(a);
    }

    /** One key of an attack's statuses landing on target t:
        `statuses[k] += v` for an integer, `statuses[k] = None` otherwise. */
    method ApplyStatusAt(t: nat, k: string, v: Val)
      requires Valid() && t < |All()|
      requires v.Int? ==> IntOrAbsent(Board()[t].statuses, k)
      modifies All()[t].statuses
      ensures var s := old(Board())[t];
              Board() == old(Board())[t := s.(statuses :=
                match ApplyEntry(Entry(s.statuses, k), v)
                case Some(w) => s.statuses[k := w]
                case None => s.statuses - {k})]
    {
      var st := All()[t].statuses;
      ghost var m := st.data;
      if v.Int? {
        var current := st.Get(k);
        assert current == (if k in m then m[k] else Int(0));
        st.Set(k, Int(current.n + v.n));
        if current.n + v.n > 0 {
          assert st.data == m[k := Int(current.n + v.n)];
        } else {
          assert st.data == m - {k};
        }
      } else {
        st.Set(k, Null);
      }
      OnlySlotChanged(t);
    }
  
    /** One pass of the hit loop: take_hit on the target, and take_damage on
        the actor for positive retaliation. */
    method HitOnce(t: nat, a: nat, atk: Attack) returns (targetAlive: bool)
      requires Valid() && t < |All()| && a < |All()| && t != a
      requires Hittable(Board()[t]) && Hittable(Board()[a])
      modifies All()[t], All()[t].permanents, All()[a], All()[a].permanents
      ensures Board() == OneHit(Cast(), old(Board()), t, a, atk)
      ensures targetAlive == Board()[t].alive
    {
      var outgoing := TakeHitAt(t, atk);
      if outgoing > 0 {
        TakeDamageAt(a, outgoing);
      }
      targetAlive := All()[t].alive;
    }

    /** The hit loop of resolve_one_creature_turn against target t. */
    method HitRun(t: nat, a: nat, atk: Attack)
      requires Valid() && t < |All()| && a < |All()| && t != a
      requires Hittable(Board()[t]) && Hittable(Board()[a])
      modifies All()[t], All()[t].permanents, All()[a], All()[a].permanents
      ensures Board() == HitLoop(Cast(), old(Board()), t, a, atk, atk.hits)
    {
      ghost var goal := HitLoop(Cast(), Board(), t, a, atk, atk.hits);
      var remaining := atk.hits;
      while remaining > 0
        invariant Hittable(Board()[t]) && Hittable(Board()[a])
        invariant HitLoop(Cast(), Board(), t, a, atk, remaining) == goal
      {
        ghost var b, before := Board(), remaining;
        var targetAlive := HitOnce(t, a, atk);
        remaining := remaining - 1;
        HitThenRest(Cast(), b, t, a, atk, before, remaining, goal);
        if !targetAlive {
          return;
        }
      }
    }

    /** The status loop of resolve_one_creature_turn for target t: runs only
        when the attack carries a non-empty statuses dict. */
    method LandStatuses(t: nat, atk: Attack, ghost nullable: set<string>)
      requires Valid() && t < |All()| && BoardTyped(Cast(), Board(), nullable) && AttackTyped(atk, nullable)
      modifies All()[t].statuses
      ensures Board() == StatusesLanded(Cast(), old(Board()), t, atk, nullable)
    {
      if atk.statuses.Some? && |atk.statuses.value| > 0 {
        var sts := atk.statuses.value;
        TypedApplied(Cast()[t], Board()[t], atk, nullable);
        ghost var b0 := Board();
        ghost var m := b0[t].statuses;
        AppliedExceptEnds(m, sts);
        var rest := sts.Keys;
        while rest != {}
          invariant rest <= sts.Keys
          invariant Board() == b0[t := b0[t].(statuses := AppliedExcept(m, sts, rest))]
          decreases rest
        {
          var k :| k in rest;
          AppliedExceptStep(m, sts, rest, k);
          assert sts[k].Int? ==> IntOrAbsent(Board()[t].statuses, k);
          ApplyStatusAt(t, k, sts[k]);
          rest := rest - {k};
        }
      }
    }

    /** The loop over the chosen targets. */
    method StrikeTargets(a: nat, atk: Attack, ts: seq<nat>, ghost nullable: set<string>)
      requires Valid() && a < |All()| && BoardTyped(Cast(), Board(), nullable) && AttackTyped(atk, nullable)
      requires forall j :: j in ts ==> j < |All()| && j != a
      modifies Objects()
      ensures Board() == Strike(Cast(), old(Board()), a, atk, ts, nullable)
    {
      ghost var goal := Strike(Cast(), Board(), a, atk, ts, nullable);
      var i := 0;
      while i < |ts|
        invariant 0 <= i <= |ts|
        invariant BoardTyped(Cast(), Board(), nullable)
        invariant forall j :: j in ts[i..] ==> j < |All()| && j != a
        invariant Strike(Cast(), Board(), a, atk, ts[i..], nullable) == goal
      {
        var t := ts[i];
        ghost var b0, i0 := Board(), i;
        StrikeFirst(Cast(), b0, a, atk, ts, i, nullable);
        assert All()[t] in All() && All()[a] in All();
        HitRun(t, a, atk);
        ghost var b1 := Board();
        LandStatuses(t, atk, nullable);
        i := i + 1;
        StrikeRest(Cast(), b0, a, atk, ts, i0, nullable, b1, Board(), i, goal);
      }
    }

    /** The end of a turn that found targets: the strikes, the beat-of-death
        damage, end_turn_resolution. */
    method FinishTurn(a: nat, atk: Attack, ts: seq<nat>, beat: Option<int>, ghost nullable: set<string>)
      requires Valid() && a < |All()| && BoardTyped(Cast(), Board(), nullable) && AttackTyped(atk, nullable)
      requires forall j :: j in ts ==> j < |All()| && j != a
      requires |Board()[a].prevActions| > 0 && Cast()[a].maxHp.Some?
      modifies Objects()
      ensures Board() == Finish(Cast(), old(Board()), a, atk, ts, beat, nullable)
    {
      assert All()[a] in All();
      StrikeTargets(a, atk, ts, nullable);
      if beat.Some? {
        TypedDamage(Cast()[a], Board()[a], Cast()[a], beat.value, nullable);
        TakeDamageAt(a, beat.value);
      }
      TypedEndTurn(Cast()[a], Board()[a], nullable);
      EndTurnAt(a);
    }

    /** The turn of a creature that survived start_turn_resolution: the beat
        totals, take_action, the living enemies, and the rest of the turn
        when there is one. */
    method ActAt(a: nat, d: Draw, ghost nullable: set<string>)
      requires Valid() && a < |All()| && BoardTyped(Cast(), Board(), nullable) && Board()[a].alive
      modifies Objects()
      ensures Board() == Act(Cast(), |left|, old(Board()), a, d, nullable)
    {
      var nl := |left|;
      assert All()[a] in All();
      ghost var b := Board();
      BoardBeats(Cast(), b, nl, nullable);
      var leftBeat := BeatTotal(Board()[..nl]);
      var rightBeat := BeatTotal(Board()[nl..]);
      TypedAction(Cast()[a], b[a], d, nullable);
      ghost var act := AfterAction(Cast()[a], b[a], d);
      var atk := TakeActionAt(a, d);
      var range := Enemies(nl, |All()|, a);
      var living := Living(Board(), range.0, range.1);
      ActTyped(Cast(), b, a, d, nullable, act, Board());
      ActSteps(Cast(), nl, b, a, d, nullable, leftBeat, rightBeat, act, Board(), living);
      if |living| == 0 {
        return;
      }
      var targets := Targets(living, atk, d);
      FinishTurn(a, atk, targets, BeatDamage(a < nl, leftBeat, rightBeat), nullable);
    }

    /** resolve_one_creature_turn for the creature in slot a (a left-roster
        creature when a < |left|). */
    method ResolveOneCreatureTurn(a: nat, d: Draw, ghost nullable: set<string>)
      requires Valid() && a < |All()| && BoardTyped(Cast(), Board(), nullable)
      modifies Objects()
      ensures Board() == Resolve(Cast(), |left|, old(Board()), a, d, nullable)
    {
      assert All()[a] in All();
      TypedStart(Cast()[a], Board()[a], nullable);
      var stillAlive := StartTurnAt(a);
      if stillAlive {
        ActAt(a, d, nullable);
      }
    }
  
    /** One roster's `for creature in ...` loop in one_battle, over slots
        lo .. hi-1: a living creature takes its turn with the next draw,
        the verdict is taken after every slot, and a stop verdict breaks. */
    method RunSide(lo: nat, hi: nat, draws: nat -> Draw, k: nat, v: Verdict, ghost nullable: set<string>)
      returns (used: nat, verdict: Verdict)
      requires Valid() && lo <= hi <= |All()| && |left| <= |All()| && BoardTyped(Cast(), Board(), nullable)
      modifies Objects()
      ensures var p := SideRun(Cast(), |left|, old(Board()), lo, hi, k, draws, v, nullable);
              Board() == p.board && used == p.used && verdict == p.verdict
    {
      ghost var goal := SideRun(Cast(), |left|, Board(), lo, hi, k, draws, v, nullable);
      used, verdict := k, v;
      var i := lo;
      while i < hi
        invariant lo <= i <= hi
        invariant BoardTyped(Cast(), Board(), nullable)
        invariant SideRun(Cast(), |left|, Board(), i, hi, used, draws, verdict, nullable) == goal
      {
        ghost var b0, k0, v0, i0 := Board(), used, verdict, i;
        used, verdict := TakeSlot(i, draws, used, nullable);
        i := i + 1;
        SlotThenRest(Cast(), |left|, b0, i0, hi, k0, draws, v0, nullable, Progress(Board(), used, verdict), i, goal);
        if !verdict.keep {
          return;
        }
      }
    }

    /** One slot of a roster loop. */
    method TakeSlot(i: nat, draws: nat -> Draw, k: nat, ghost nullable: set<string>)
      returns (used: nat, verdict: Verdict)
      requires Valid() && i < |All()| && |left| <= |All()| && BoardTyped(Cast(), Board(), nullable)
      modifies Objects()
      ensures Progress(Board(), used, verdict) == Slot(Cast(), |left|, old(Board()), i, k, draws, nullable)
    {
      used := k;
      if All()[i].alive {
        ResolveOneCreatureTurn(i, draws(used), nullable);
        used := used + 1;
      }
      verdict := Check(Board(), |left|);
    }

    /** The two roster loops of one pass of one_battle's outer loop: the
        left roster, then the right one. */
    method PlaySides(draws: nat -> Draw, k: nat, v: Verdict, ghost nullable: set<string>)
      returns (used: nat, verdict: Verdict)
      requires Valid() && BoardTyped(Cast(), Board(), nullable)
      modifies Objects()
      ensures Progress(Board(), used, verdict) == Round(Cast(), |left|, old(Board()), k, draws, v, nullable)
    {
      used, verdict := RunSide(0, |left|, draws, k, v, nullable);
      used, verdict := RunSide(|left|, |All()|, draws, used, verdict, nullable);
    }

    /** One pass of one_battle's outer loop: the left roster, then the right,
        then the turn counter. */
    method PlayRound(draws: nat -> Draw, k: nat, v: Verdict, ghost nullable: set<string>)
      returns (used: nat, verdict: Verdict)
      requires Valid() && BoardTyped(Cast(), Board(), nullable)
      modifies this, Objects()
      ensures Progress(Board(), used, verdict) == Round(Cast(), |left|, old(Board()), k, draws, v, nullable)
      ensures currentTurn == old(currentTurn) + 1
    {
      used, verdict := PlaySides(draws, k, v, nullable);
      ghost var b1 := Board();
      currentTurn := currentTurn + 1;
      assert Board() == b1;
    }

    /** one_battle with a budget of `fuel` rounds: the left roster's slots,
        then the right roster's, then current_turn grows by one, until the
        verdict says stop. None when the budget ran out first. */
    method OneBattle(draws: nat -> Draw, fuel: nat, ghost nullable: set<string>) returns (leftWon: Option<bool>)
      requires Valid() && BoardTyped(Cast(), Board(), nullable)
      modifies this, Objects()
      ensures var e := Battle(Cast(), |left|, old(Board()), 0, draws, Verdict(true, Some(true)), fuel,
                              old(currentTurn), nullable);
              leftWon == e.winner && Board() == e.board && currentTurn == e.turn
    {
      var v := Verdict(true, Some(true));
      ghost var goal := Battle(Cast(), |left|, Board(), 0, draws, v, fuel, currentTurn, nullable);
      var used := 0;
      var budget := fuel;
      while v.keep && budget > 0
        invariant BoardTyped(Cast(), Board(), nullable)
        invariant Battle(Cast(), |left|, Board(), used, draws, v, budget, currentTurn, nullable) == goal
        decreases budget
      {
        ghost var b0, t0, k, v0, fuel0 := Board(), currentTurn, used, v, budget;
        budget := budget - 1;
        used, v := PlayRound(draws, used, v, nullable);
        RoundThenRest(Cast(), |left|, b0, k, draws, v0, fuel0, t0, nullable, Board(), used, v, budget, currentTurn, goal);
      }
      leftWon := if v.keep then None else v.leftWon;
    }
  }
}
