/** take_action for every kind of creature: the species' pick_action, the
    producer the catalog maps the name to, then the bookkeeping. */
module Actions {
  import opened Base
  import opened Modifiers
  import opened Attacks
  import opened Creatures
  import Heart
  import JawWorm

  /** The random draws one creature turn may consume: the Heart's coin
      (`random.random() >= 0.5`), the Jaw Worm's pick among its candidates,
      and the single target of an attack that is not multi-target. */
  datatype Draw = Draw(coin: bool, choice: nat, target: nat)

  /** The names a species' catalog holds. */
  predicate InCatalog(sp: Species, name: string) {
    match sp
    case Generic(keys, producers) => name in producers
    case HeartKind => name in Heart.Moves
    case JawWormKind => name in JawWorm.Catalog
  }

  /** What take_action needs so that no exception escapes: a non-empty
      catalog (the default pick_action calls next on its keys), a last
      action to look at once turns_taken is not 0, and integer strength
      (and beat_of_death on the Heart's second buff) for the arithmetic. */
  predicate ActionReady(p: Profile, s: CState) {
    match p.species
    case Generic(keys, producers) => |keys| > 0 && keys[0] in producers
    case HeartKind => (s.turnsTaken == 0 || |s.prevActions| > 0) && Heart.BuffReady(s)
    case JawWormKind => (s.turnsTaken == 0 || |s.prevActions| > 0) && HasStrength(s)
  }

  /** pick_action, by species; the base class takes the first catalog key. */
  function PickAction(p: Profile, s: CState, d: Draw): (name: string)
    requires ActionReady(p, s)
    ensures InCatalog(p.species, name)
  {
    match p.species
    case Generic(keys, _) => keys[0]
    case HeartKind => Heart.Pick(s.turnsTaken, s.prevActions, d.coin)
    case JawWormKind => JawWorm.Pick(s.turnsTaken, s.prevActions, d.choice)
  }

  /** `action_dict[name]()`: the state the producer leaves and the attack it
      returns. */
  function Produce(p: Profile, s: CState, name: string): (r: (CState, Attack))
    requires ActionReady(p, s) && InCatalog(p.species, name)
    ensures r.0.rawHp == s.rawHp && r.0.alive == s.alive
    ensures r.0.turnsTaken == s.turnsTaken && r.0.prevActions == s.prevActions
  {
    match p.species
    case Generic(_, producers) => (s, producers[name])
    case HeartKind =>
      if name == "debilitate" then (s, Heart.Debilitate())
      else if name == "blood_shots" then (s, Heart.BloodShots(p.ascension, s))
      else if name == "echo" then (s, Heart.Echo(p.ascension, s))
      else (Heart.AfterBuff(s), NewAttack(None, 1, None, None, false, None))
    case JawWormKind =>
      if name == "chomp" then (s, JawWorm.Chomp(p.ascension, s))
      else if name == "thrash" then JawWorm.AfterThrash(s)
      else JawWorm.AfterBellow(p.ascension, s)
  }

  /** take_action: the picked name's producer runs, then turns_taken grows by
      one and exactly that name is appended to prev_actions. */
  function AfterAction(p: Profile, s: CState, d: Draw): (r: (CState, Attack))
    requires ActionReady(p, s)
    ensures r.0.turnsTaken == s.turnsTaken + 1
    ensures r.0.prevActions == s.prevActions + [PickAction(p, s, d)]
    ensures r.0.rawHp == s.rawHp && r.0.alive == s.alive
  {
    var name := PickAction(p, s, d);
    var r := Produce(p, s, name);
    (r.0.(turnsTaken := r.0.turnsTaken + 1, prevActions := r.0.prevActions + [name]), r.1)
  }

  method TakeAction(c: Creature, d: Draw) returns (atk: Attack)
    requires ActionReady(c.Fixed(), c.State())
    modifies c, c.statuses, c.permanents
    ensures (c.State(), atk) == AfterAction(c.Fixed(), old(c.State()), d)
  {
    ghost var s0 := c.State();
    var name := PickAction(c.Fixed(), c.State(), d);
    match c.species {
      case Generic(_, producers) =>
        atk := producers[name];
      case HeartKind =>
        if name == "debilitate" {
          atk := Heart.Debilitate();
        } else if name == "blood_shots" {
          atk := Heart.BloodShots(c.ascension, c.State());
        } else if name == "echo" {
          atk := Heart.Echo(c.ascension, c.State());
        } else {
          atk := Heart.Buff(c);
        }
      case JawWormKind =>
        if name == "chomp" {
          atk := JawWorm.Chomp(c.ascension, c.State());
        } else if name == "thrash" {
          atk := JawWorm.Thrash(c);
        } else {
          atk := JawWorm.Bellow(c);
        }
    }
    assert (c.State(), atk) == Produce(c.Fixed(), s0, name);
    c.RecordAction(name);
  }

  /** take_action never touches hp or alive, adds exactly one turn, and
      appends exactly the picked name; a base-class creature always picks
      its first catalog key and returns that key's attack. */
  lemma ActionBookkeeping(p: Profile, s: CState, d: Draw)
    requires ActionReady(p, s)
    ensures var (s', atk) := AfterAction(p, s, d);
            && s'.rawHp == s.rawHp && s'.alive == s.alive
            && s'.turnsTaken == s.turnsTaken + 1
            && |s'.prevActions| == |s.prevActions| + 1
            && s'.prevActions[..|s.prevActions|] == s.prevActions
            && InCatalog(p.species, s'.prevActions[|s.prevActions|])
            && (p.species.Generic? ==> s' == s.(turnsTaken := s.turnsTaken + 1,
                                                prevActions := s.prevActions + [p.species.keys[0]])
                                       && atk == p.species.producers[p.species.keys[0]])
  {
    var name := PickAction(p, s, d);
    assert (s.prevActions + [name])[..|s.prevActions|] == s.prevActions;
  }

  /** take_action keeps the creature ready for its next take_action: the
      history is non-empty afterwards and strength stays an integer. */
  lemma ActionKeepsReady(p: Profile, s: CState, d: Draw)
    requires ActionReady(p, s)
    requires p.species.HeartKind? ==> Heart.Buffable(s)
    ensures |AfterAction(p, s, d).0.prevActions| > 0
    ensures p.species.HeartKind? ==> Heart.Buffable(AfterAction(p, s, d).0)
    ensures ActionReady(p, AfterAction(p, s, d).0)
  {
  }
}
