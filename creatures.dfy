/** A creature: hit points, block, its two modifier stores, its turn counter,
    alive flag and action history, and the damage / turn-boundary rules. */
module Creatures {
  import opened Base
  import opened Modifiers
  import opened Attacks

  /** Which class an instance is. The base class carries its own action
      catalog: the keys in insertion order and, per key, the attack its
      producer returns. */
  datatype Species =
    | Generic(keys: seq<string>, producers: map<string, Attack>)
    | HeartKind
    | JawWormKind

  /** What a creature fixes at construction and never changes. */
  datatype Profile = Profile(species: Species, ascension: int, maxHp: Option<int>, takenThisTurn: int)

  /** What a creature's methods update. buffCount is the Heart's count of buffs. */
  datatype CState = CState(
    rawHp: Option<int>,
    curBlock: Option<int>,
    statuses: Store,
    permanents: Store,
    turnsTaken: nat,
    alive: bool,
    prevActions: seq<string>,
    buffCount: nat)

  /** The hp getter: a missing value reads as 0. */
  function HpOf(s: CState): (r: int)
    ensures s.rawHp.Some? ==> r == s.rawHp.value
    ensures s.rawHp.None? ==> r == 0
  {
    s.rawHp.GetOr(0)
  }

  /** The block getter: a missing value reads as 0. */
  function BlockOf(s: CState): (r: int)
    ensures s.curBlock.Some? ==> r == s.curBlock.value
    ensures s.curBlock.None? ==> r == 0
  {
    s.curBlock.GetOr(0)
  }

  function Min(a: int, b: int): int {
    if a <= b then a else b
  }

  /** The entry is an integer if present; arithmetic on a None entry raises
      TypeError in the source. */
  predicate IntOrAbsent(m: Store, k: string) {
    k in m ==> m[k].Int?
  }

  /** An integer entry's value, 0 when absent. */
  function Amount(m: Store, k: string): int
    requires IntOrAbsent(m, k)
  {
    if k in m then m[k].n else 0
  }

  /** `self.strength` routes to the permanents store ("strength" is one of
      the permanent names); arithmetic on it needs an integer there. */
  predicate HasStrength(s: CState) {
    "strength" in s.permanents && s.permanents["strength"].Int?
  }

  function StrengthOf(s: CState): int
    requires HasStrength(s)
  {
    s.permanents["strength"].n
  }

  predicate HpWritable(s: CState) {
    IntOrAbsent(s.permanents, "buffer")
  }

  predicate Hittable(s: CState) {
    && HpWritable(s)
    && IntOrAbsent(s.permanents, "invincible")
    && IntOrAbsent(s.permanents, "thorns")
    && IntOrAbsent(s.permanents, "flame_barrier")
  }

  predicate EndTurnReady(s: CState, p: Profile) {
    && HpWritable(s)
    && IntOrAbsent(s.statuses, "regeneration")
    && IntOrAbsent(s.statuses, "poison")
    && ("regeneration" in s.statuses ==> p.maxHp.Some?)
  }

  /** The hp setter. With "buffer" among the permanents the write is dropped
      and one buffer charge is spent (the entry is never removed); otherwise
      hp takes the value, clamped to 0, and a value of 0 or less kills. */
  function AfterHpWrite(s: CState, v: int): (r: CState)
    requires HpWritable(s)
    ensures HpWritable(r) && r.permanents.Keys == s.permanents.Keys
    ensures r.statuses == s.statuses && r.curBlock == s.curBlock && r.turnsTaken == s.turnsTaken
    ensures r.prevActions == s.prevActions && r.buffCount == s.buffCount
    ensures "buffer" in s.permanents ==>
              && r.rawHp == s.rawHp && r.alive == s.alive
              && r.permanents["buffer"] == Int(s.permanents["buffer"].n - 1)
              && forall k :: k in s.permanents && k != "buffer" ==> r.permanents[k] == s.permanents[k]
    ensures "buffer" !in s.permanents ==>
              && r.permanents == s.permanents
              && HpOf(r) == (if v <= 0 then 0 else v) && r.rawHp.Some?
              && r.alive == (s.alive && v > 0)
  {
    if "buffer" in s.permanents then
      s.(permanents := s.permanents["buffer" := Int(s.permanents["buffer"].n - 1)])
    else
      s.(rawHp := Some(if v <= 0 then 0 else v), alive := s.alive && v > 0)
  }

  /** take_damage: block absorbs first; the excess, capped by "invincible"
      less the damage already counted this turn, goes to the hp setter. */
  function AfterDamage(s: CState, p: Profile, d: int): (r: CState)
    requires Hittable(s)
    ensures Hittable(r) && r.permanents.Keys == s.permanents.Keys
    ensures forall k :: k in s.permanents && k != "buffer" ==> r.permanents[k] == s.permanents[k]
    ensures r.statuses == s.statuses && r.turnsTaken == s.turnsTaken
    ensures r.prevActions == s.prevActions && r.buffCount == s.buffCount
  {
    if d > BlockOf(s) then
      var excess := d - BlockOf(s);
      var loss :=
        if "invincible" in s.permanents && p.takenThisTurn + excess > s.permanents["invincible"].n
        then s.permanents["invincible"].n - p.takenThisTurn
        else excess;
      AfterHpWrite(s.(curBlock := Some(0)), HpOf(s) - loss)
    else
      s.(curBlock := Some(BlockOf(s) - d))
  }

  /** The damage take_hit passes on: x1.5 rounded down under "vulnerable",
      then at most 1 under "intangible". */
  function HitDamage(s: CState, atk: Attack): (r: int)
    ensures "intangible" in s.statuses ==> r <= 1
    ensures "vulnerable" !in s.statuses && "intangible" !in s.statuses ==> r == atk.damage
    ensures "vulnerable" in s.statuses && "intangible" !in s.statuses ==> 2 * r <= 3 * atk.damage < 2 * r + 2
    ensures atk.damage >= 0 ==> 0 <= r && ("intangible" !in s.statuses ==> atk.damage <= r)
  {
    var d := if "vulnerable" in s.statuses then (3 * atk.damage) / 2 else atk.damage;
    if "intangible" in s.statuses then Min(d, 1) else d
  }

  /** Damage returned to the attacker: thorns plus flame_barrier, each only
      if present. */
  function Retaliation(m: Store): (r: int)
    requires IntOrAbsent(m, "thorns") && IntOrAbsent(m, "flame_barrier")
    ensures "thorns" !in m && "flame_barrier" !in m ==> r == 0
    ensures "flame_barrier" !in m ==> r == Amount(m, "thorns")
    ensures "thorns" !in m ==> r == Amount(m, "flame_barrier")
    ensures Amount(m, "thorns") >= 0 && Amount(m, "flame_barrier") >= 0 ==>
              r >= Amount(m, "thorns") && r >= Amount(m, "flame_barrier")
  {
    Amount(m, "thorns") + Amount(m, "flame_barrier")
  }

  /** take_hit: the new state and the retaliation it returns. */
  function AfterHit(s: CState, p: Profile, atk: Attack): (r: (CState, int))
    requires Hittable(s)
    ensures Hittable(r.0)
  {
    var s' := AfterDamage(s, p, HitDamage(s, atk));
    (s', Retaliation(s'.permanents))
  }

  /** start_turn_resolution: nothing on the creature's first turn; later,
      block drops to 0 unless "blur" is a status or "barricade" a permanent. */
  function AfterStartTurn(s: CState): (r: CState)
    ensures r == s.(curBlock := r.curBlock)
    ensures s.turnsTaken == 0 || "blur" in s.statuses || "barricade" in s.permanents ==> r == s
    ensures s.turnsTaken > 0 && "blur" !in s.statuses && "barricade" !in s.permanents ==> r.curBlock == Some(0)
  {
    if s.turnsTaken == 0 then s
    else if "blur" !in s.statuses && "barricade" !in s.permanents then s.(curBlock := Some(0))
    else s
  }

  /** The status pass of end_turn_resolution: poison's value comes off hp,
      and every integer status is decremented (removed at 0 or less). */
  function AfterStatusTicks(s: CState): (r: CState)
    requires HpWritable(s) && IntOrAbsent(s.statuses, "poison")
    ensures r.statuses == Decayed(s.statuses)
    ensures r.curBlock == s.curBlock && r.turnsTaken == s.turnsTaken
    ensures r.prevActions == s.prevActions && r.buffCount == s.buffCount
    ensures "poison" !in s.statuses ==> r == s.(statuses := Decayed(s.statuses))
    ensures "poison" in s.statuses && "buffer" !in s.permanents ==>
              HpOf(r) == (if HpOf(s) - s.statuses["poison"].n <= 0 then 0 else HpOf(s) - s.statuses["poison"].n)
              && r.alive == (s.alive && HpOf(s) - s.statuses["poison"].n > 0)
  {
    var s3 :=
      if "poison" in s.statuses
      then AfterHpWrite(s, HpOf(s) - s.statuses["poison"].n)
      else s;
    s3.(statuses := Decayed(s.statuses))
  }

  /** The store after the status pass has handled every key outside rest. */
  function DecayedExcept(m: Store, rest: set<string>): Store {
    map k | k in m && (k in rest || DecayEntry(m[k]).Some?) ::
      if k in rest then m[k] else DecayEntry(m[k]).value
  }

  /** The state part-way through the status pass, with the keys in rest still
      to do. */
  function TicksPending(s: CState, rest: set<string>): CState
    requires HpWritable(s) && IntOrAbsent(s.statuses, "poison")
  {
    var s3 :=
      if "poison" in s.statuses && "poison" !in rest
      then AfterHpWrite(s, HpOf(s) - s.statuses["poison"].n)
      else s;
    s3.(statuses := DecayedExcept(s.statuses, rest))
  }

  /** One iteration of the status pass, on key k. */
  function TickOne(s: CState, k: string): (r: CState)
    requires k in s.statuses && HpWritable(s) && (k == "poison" ==> s.statuses[k].Int?)
    ensures HpWritable(r) && r.turnsTaken == s.turnsTaken && r.curBlock == s.curBlock
    ensures k != "poison" ==> r.rawHp == s.rawHp && r.alive == s.alive && r.permanents == s.permanents
    ensures r.statuses.Keys <= s.statuses.Keys
    ensures forall j :: j in s.statuses && j != k ==> j in r.statuses && r.statuses[j] == s.statuses[j]
    ensures k in r.statuses <==> DecayEntry(s.statuses[k]).Some?
    ensures k in r.statuses ==> r.statuses[k] == DecayEntry(s.statuses[k]).value
  {
    var s1 := if k == "poison" then AfterHpWrite(s, HpOf(s) - s.statuses[k].n) else s;
    s1.(statuses :=
          match DecayEntry(s.statuses[k])
          case Some(w) => s.statuses[k := w]
          case None => s.statuses - {k})
  }

  lemma TicksPendingStep(s: CState, rest: set<string>, k: string)
    requires HpWritable(s) && IntOrAbsent(s.statuses, "poison")
    requires rest <= s.statuses.Keys && k in rest
    ensures HpWritable(TicksPending(s, rest))
    ensures k in TicksPending(s, rest).statuses
    ensures TicksPending(s, rest).statuses[k] == s.statuses[k]
    ensures TickOne(TicksPending(s, rest), k) == TicksPending(s, rest - {k})
  {
    var a := TicksPending(s, rest);
    var b := TicksPending(s, rest - {k});
    assert TickOne(a, k).statuses == b.statuses;
  }

  lemma TicksPendingEnds(s: CState)
    requires HpWritable(s) && IntOrAbsent(s.statuses, "poison")
    ensures TicksPending(s, s.statuses.Keys) == s
    ensures TicksPending(s, {}) == AfterStatusTicks(s)
  {
    assert DecayedExcept(s.statuses, s.statuses.Keys) == s.statuses;
    assert DecayedExcept(s.statuses, {}) == Decayed(s.statuses);
  }

  /** end_turn_resolution: regeneration heal capped at max hp, turns_taken
      + 1, then the status pass. */
  function AfterEndTurn(s: CState, p: Profile): (r: CState)
    requires EndTurnReady(s, p)
    ensures r.turnsTaken == s.turnsTaken + 1
    ensures r.statuses == Decayed(s.statuses)
    ensures r.curBlock == s.curBlock && r.prevActions == s.prevActions && r.buffCount == s.buffCount
    ensures "regeneration" !in s.statuses && "poison" !in s.statuses ==>
              r == s.(turnsTaken := s.turnsTaken + 1, statuses := Decayed(s.statuses))
  {
    var s1 :=
      if "regeneration" in s.statuses
      then AfterHpWrite(s, Min(HpOf(s) + s.statuses["regeneration"].n, p.maxHp.value))
      else s;
    AfterStatusTicks(s1.(turnsTaken := s1.turnsTaken + 1))
  }

  /** The lists adjust_possible_actions leaves and how it completes. */
  datatype Pruning = Pruning(actions: seq<string>, weights: Option<seq<real>>, outcome: Outcome)

  /** adjust_possible_actions on list values: each name in turn is looked up
      (ValueError if absent), popped, and the weight at the same index popped
      (IndexError if there is none). Renormalising into a local changes
      nothing the caller sees. */
  function Pruned(acts: seq<string>, ws: Option<seq<real>>, toRemove: seq<string>): (r: Pruning)
    ensures ws.None? ==> r.weights.None?
    ensures r.outcome.Pass? ==> |r.actions| == |acts| - |toRemove|
    ensures r.outcome.Pass? && ws.Some? ==> r.weights.Some? && |r.weights.value| == |ws.value| - |toRemove|
    decreases |toRemove|
  {
    if toRemove == [] then Pruning(acts, ws, Pass)
    else match IndexOf(acts, toRemove[0])
      case None => Pruning(acts, ws, Fail("'" + toRemove[0] + "' is not in list"))
      case Some(i) =>
        var acts' := RemoveAt(acts, i);
        if ws.Some? && i >= |ws.value| then Pruning(acts', ws, Fail("pop index out of range"))
        else Pruned(acts', if ws.Some? then Some(RemoveAt(ws.value, i)) else None, toRemove[1..])
  }

  class Creature {
    var rawHp: Option<int>
    var curBlock: Option<int>
    const maxHp: Option<int>
    const statuses: Statuses
    const permanents: Permanents
    const species: Species
    const ascension: int
    var turnsTaken: nat
    var alive: bool
    /** Set to 0 at construction and never updated by the source. */
    const currentTurnTakenDamage: int
    var prevActions: seq<string>
    var buffCount: nat

    /** The store defaults the constructor fixes. */
    predicate Valid() {
      statuses.defaultVal == Int(0) && permanents.defaultVal == Null
    }

    function State(): CState
      reads this, statuses, permanents
    {
      CState(rawHp, curBlock, statuses.data, permanents.data, turnsTaken, alive, prevActions, buffCount)
    }

    function Fixed(): Profile {
      Profile(species, ascension, maxHp, currentTurnTakenDamage)
    }

    /** Creature(hp, cur_block, statuses, permanents, action_dict); the
        species and the configured ascension stand for the subclass. */
    constructor (hp: Option<int>, block: Option<int>, initStatuses: Store, initPermanents: Store,
                 species: Species, ascension: int)
      ensures Valid() && fresh(statuses) && fresh(permanents)
      ensures State() == CState(hp, block, Seeded(Admitted(initStatuses)), Seeded(initPermanents),
                                0, hp.Some? && hp.value > 0, [], 0)
      ensures Fixed() == Profile(species, ascension, hp, 0)
    {
      rawHp, curBlock := hp, block;
      maxHp := hp;
      statuses := new Statuses(initStatuses, Null);
      permanents := new Permanents(initPermanents);
      this.species := species;
      this.ascension := ascension;
      turnsTaken := 0;
      alive := hp.Some? && hp.value > 0;
      currentTurnTakenDamage := 0;
      prevActions := [];
      buffCount := 0;
    }

    /** The hp getter. */
    function Hp(): int
      reads this
    {
      rawHp.GetOr(0)
    }

    /** The block getter. */
    function Block(): int
      reads this
    {
      curBlock.GetOr(0)
    }

    /** The hp setter. */
    method SetHp(v: int)
      requires HpWritable(State())
      modifies this, permanents
      ensures State() == AfterHpWrite(old(State()), v)
    {
      if permanents.Contains("buffer") {
        var charges := permanents.Get("buffer");
        permanents.Set("buffer", Int(charges.n - 1));
        return;
      }
      rawHp := Some(v);
      if v <= 0 {
        alive := false;
        rawHp := Some(0);
      }
    }

    /** The block setter. */
    method SetBlock(v: int)
      modifies this
      ensures State() == old(State()).(curBlock := Some(v))
    {
      curBlock := Some(v);
    }

    method TakeDamage(d: int)
      requires Hittable(State())
      modifies this, permanents
      ensures State() == AfterDamage(old(State()), Fixed(), d)
    {
      var damage := d;
      if damage > Block() {
        damage := damage - Block();
        if permanents.Contains("invincible")
           && currentTurnTakenDamage + damage > permanents.data["invincible"].n {
          damage := permanents.data["invincible"].n - currentTurnTakenDamage;
        }
        SetBlock(0);
        SetHp(Hp() - damage);
      } else {
        SetBlock(Block() - damage);
      }
    }

    method TakeHit(atk: Attack) returns (outgoing: int)
      requires Hittable(State())
      modifies this, permanents
      ensures (State(), outgoing) == AfterHit(old(State()), Fixed(), atk)
    {
      var damage := atk.damage;
      if statuses.Contains("vulnerable") {
        damage := (3 * damage) / 2;
      }
      if statuses.Contains("intangible") {
        damage := Min(damage, 1);
      }
      outgoing := 0;
      TakeDamage(damage);
      if permanents.Contains("thorns") {
        outgoing := outgoing + permanents.data["thorns"].n;
      }
      if permanents.Contains("flame_barrier") {
        outgoing := outgoing + permanents.data["flame_barrier"].n;
      }
    }

    method StartTurnResolution() returns (stillAlive: bool)
      modifies this
      ensures State() == AfterStartTurn(old(State()))
      ensures stillAlive == alive
    {
      if turnsTaken == 0 {
        return alive;
      }
      if !statuses.Contains("blur") && !permanents.Contains("barricade") {
        curBlock := Some(0);
      }
      return alive;
    }

    method EndTurnResolution() returns (stillAlive: bool)
      requires EndTurnReady(State(), Fixed())
      modifies this, statuses, permanents
      ensures State() == AfterEndTurn(old(State()), Fixed())
      ensures stillAlive == alive
    {
      ghost var s0 := State();
      if statuses.Contains("regeneration") {
        SetHp(Min(Hp() + statuses.data["regeneration"].n, maxHp.value));
      }
      ghost var s1 := State();
      assert s1 == if "regeneration" in s0.statuses
                   then AfterHpWrite(s0, Min(HpOf(s0) + s0.statuses["regeneration"].n, maxHp.value))
                   else s0;
      turnsTaken := turnsTaken + 1;
      assert State() == s1.(turnsTaken := s1.turnsTaken + 1);
      TickStatuses();
      stillAlive := alive;
    }

    /** The loop of end_turn_resolution over a snapshot of the status keys. */
    method TickStatuses()
      requires HpWritable(State()) && IntOrAbsent(statuses.data, "poison")
      modifies this, statuses, permanents
      ensures State() == AfterStatusTicks(old(State()))
    {
      ghost var s0 := State();
      var snapshot := statuses.data;
      var rest := snapshot.Keys;
      TicksPendingEnds(s0);
      while rest != {}
        invariant rest <= snapshot.Keys && snapshot == s0.statuses
        invariant State() == TicksPending(s0, rest)
        decreases rest
      {
        var k :| k in rest;
        TicksPendingStep(s0, rest, k);
        TickStatus(k);
        rest := rest - {k};
      }
    }

    /** The body of that loop for one key. */
    method TickStatus(k: string)
      requires k in statuses.data && HpWritable(State())
      requires k == "poison" ==> statuses.data[k].Int?
      modifies this, statuses, permanents
      ensures State() == TickOne(old(State()), k)
    {
      var value := statuses.Get(k);
      if k == "poison" {
        SetHp(Hp() - value.n);
      }
      if value.Int? {
        var current := statuses.Get(k);
        statuses.Set(k, Int(current.n - 1));
      }
    }

    /** The bookkeeping half of take_action: one more turn, the action name
        appended to the history. */
    method RecordAction(name: string)
      modifies this
      ensures State() == old(State()).(turnsTaken := old(turnsTaken) + 1,
                                       prevActions := old(prevActions) + [name])
    {
      turnsTaken := turnsTaken + 1;
      prevActions := prevActions + [name];
    }

    /** adjust_possible_actions, on the caller's list objects. */
    static method AdjustPossibleActions(actions: PyList<string>, toRemove: seq<string>,
                                        weights: PyList?<real>) returns (r: Outcome)
      modifies actions, weights
      ensures var p := Pruned(old(actions.items),
                              if weights == null then None else Some(old(weights.items)), toRemove);
              && actions.items == p.actions
              && (weights != null ==> p.weights == Some(weights.items))
              && r == p.outcome
    {
      var i := 0;
      while i < |toRemove|
        invariant 0 <= i <= |toRemove|
        invariant Pruned(old(actions.items), if weights == null then None else Some(old(weights.items)), toRemove)
               == Pruned(actions.items, if weights == null then None else Some(weights.items), toRemove[i..])
      {
        var idx := IndexOf(actions.items, toRemove[i]);
        if idx.None? {
          return Fail("'" + toRemove[i] + "' is not in list");
        }
        actions.items := RemoveAt(actions.items, idx.value);
        if weights != null {
          if idx.value >= |weights.items| {
            return Fail("pop index out of range");
          }
          weights.items := RemoveAt(weights.items, idx.value);
        }
        i := i + 1;
      }
      return Pass;
    }
  }
}
