/** An attack: damage per hit, hit count, statuses to apply, an unused target
    reference and a multi-target flag, fixed once it is built. */
module Attacks {
  import opened Base
  import opened Modifiers

  /** `target` stands for the creature reference the source carries and never
      reads; it is an opaque identifier here. */
  datatype Attack = Attack(
    damage: int,
    hits: int,
    statuses: Option<Store>,
    target: Option<nat>,
    multiTarget: bool)

  /** Attack(damage=None, hits=1, statuses=None, target=None,
      multi_target=False, creature=None). `source` holds the statuses of the
      creature passed as `creature`, if one is. */
  function NewAttack(damage: Option<int>, hits: int, statuses: Option<Store>,
                     target: Option<nat>, multiTarget: bool, source: Option<Store>): (a: Attack)
    ensures damage.None? ==> a.damage == 0 && a.hits == 0
    ensures damage.Some? ==> a.hits == hits
    ensures damage.Some? && !(source.Some? && "weak" in source.value) ==> a.damage == damage.value
    ensures damage.Some? && source.Some? && "weak" in source.value ==>
              4 * a.damage <= 3 * damage.value < 4 * a.damage + 4
    ensures a.statuses == statuses && a.target == target && a.multiTarget == multiTarget
  {
    var base := damage.GetOr(0);
    var weakened := if source.Some? && "weak" in source.value then (3 * base) / 4 else base;
    Attack(weakened, if damage.Some? then hits else 0, statuses, target, multiTarget)
  }

  /** What the right-hand side of `==` can be. */
  datatype Operand = AttackOperand(other: Attack) | IntOperand(n: int) | OtherOperand

  /** Attack.__eq__: an attack equals itself; equal attacks compare equal to
      the same integers; an attack with no hits equals exactly the integer 0;
      anything else is unequal. */
  function Equals(a: Attack, o: Operand): (r: bool)
    ensures o == AttackOperand(a) ==> r
    ensures o.AttackOperand? && r ==> a.damage * a.hits == o.other.damage * o.other.hits
    ensures o.IntOperand? && a.hits == 0 ==> (r <==> o.n == 0)
    ensures o.OtherOperand? ==> !r
  {
    match o
    case AttackOperand(b) => a.damage == b.damage && a.hits == b.hits && a.statuses == b.statuses
    case IntOperand(n) => a.damage * a.hits == n
    case OtherOperand => false
  }

  /** The weak reduction never raises a non-negative damage and keeps it
      non-negative. */
  lemma WeakNeverIncreases(d: int, hits: int, statuses: Option<Store>, source: Store)
    requires d >= 0 && "weak" in source
    ensures 0 <= NewAttack(Some(d), hits, statuses, None, false, Some(source)).damage <= d
  {
  }

  /** Scenario: a weak source building a 10-damage attack gets 7. */
  lemma WeakTenIsSeven(source: Store)
    requires "weak" in source
    ensures NewAttack(Some(10), 1, None, None, false, Some(source)).damage == 7
  {
  }

  /** An attack built without damage compares equal to the integer 0, whatever
      hit count was passed. */
  lemma NoDamageEqualsZero(hits: int, statuses: Option<Store>, multiTarget: bool, source: Option<Store>)
    ensures Equals(NewAttack(None, hits, statuses, None, multiTarget, source), IntOperand(0))
  {
  }

  /** Equality between attacks ignores the target and the multi-target flag. */
  lemma EqualsIgnoresTargeting(a: Attack, b: Attack, t: Option<nat>, m: bool)
    ensures Equals(a, AttackOperand(b)) == Equals(a.(target := t, multiTarget := m), AttackOperand(b))
    ensures Equals(a, AttackOperand(b)) == Equals(a, AttackOperand(b.(target := t, multiTarget := m)))
  {
  }

  /** Equality between attacks is an equivalence. */
  lemma EqualsIsEquivalence(a: Attack, b: Attack, c: Attack)
    ensures Equals(a, AttackOperand(a))
    ensures Equals(a, AttackOperand(b)) == Equals(b, AttackOperand(a))
    ensures Equals(a, AttackOperand(b)) && Equals(b, AttackOperand(c)) ==> Equals(a, AttackOperand(c))
  {
  }

  /** Two attacks equal as attacks are equal to the same integers. */
  lemma EqualAttacksEqualSameInts(a: Attack, b: Attack, n: int)
    requires Equals(a, AttackOperand(b))
    ensures Equals(a, IntOperand(n)) == Equals(b, IntOperand(n))
  {
  }
}
