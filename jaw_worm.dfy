/** The Jaw Worm: its move policy, its three moves and its construction. */
module JawWorm {
  import opened Base
  import opened Modifiers
  import opened Attacks
  import opened Creatures
  import CreatureLaws

  /** The action catalog, in insertion order. */
  const Catalog: seq<string> := ["chomp", "thrash", "bellow"]

  /** The candidate list pick_action starts from, and its weights. */
  const Candidates: seq<string> := ["bellow", "chomp", "thrash"]
  const Weights: seq<real> := [0.45, 0.25, 0.3]

  /** The name pick_action removes from the candidates after prev: the last
      action if it was bellow or chomp, thrash after two thrashes, else none
      (the empty name). */
  function Banned(prev: seq<string>): (r: string)
    requires |prev| > 0
    ensures r == "" || r in Candidates
  {
    var last := prev[|prev| - 1];
    if last == "bellow" || last == "chomp" then last
    else if |prev| >= 2 && last == "thrash" && prev[|prev| - 2] == "thrash" then "thrash"
    else ""
  }

  /** The candidates left after adjust_possible_actions removes the banned
      name from the local lists. */
  function Remaining(prev: seq<string>): (r: seq<string>)
    requires |prev| > 0
    ensures |r| >= 2
    ensures forall a :: a in r ==> a in Candidates
    ensures Banned(prev) != "" ==> Banned(prev) !in r && |r| == 2
    ensures Banned(prev) == "" ==> r == Candidates
  {
    var banned := Banned(prev);
    if banned == "" then Candidates
    else
      CreatureLaws.PruneOne(Candidates, Weights, banned);
      Pruned(Candidates, Some(Weights), [banned]).actions
  }

  /** pick_action. `choice` stands for the draw of random.choices over the
      remaining candidates. */
  function Pick(turnsTaken: nat, prev: seq<string>, choice: nat): (a: string)
    requires turnsTaken == 0 || |prev| > 0
    ensures a in Candidates
  {
    if turnsTaken == 0 then "chomp"
    else
      var possible := Remaining(prev);
      possible[choice % |possible|]
  }

  /** The policy: chomp first; never bellow or chomp twice in a row; never a
      third thrash in a row. */
  lemma PickRules(turnsTaken: nat, prev: seq<string>, choice: nat)
    requires turnsTaken == 0 || |prev| > 0
    ensures turnsTaken == 0 ==> Pick(turnsTaken, prev, choice) == "chomp"
    ensures turnsTaken > 0 && (prev[|prev| - 1] == "bellow" || prev[|prev| - 1] == "chomp") ==>
              Pick(turnsTaken, prev, choice) != prev[|prev| - 1]
    ensures turnsTaken > 0 && |prev| >= 2 && prev[|prev| - 1] == "thrash" && prev[|prev| - 2] == "thrash" ==>
              Pick(turnsTaken, prev, choice) != "thrash"
  {
    if turnsTaken > 0 {
      var r := Remaining(prev);
      assert r[choice % |r|] in r;
    }
  }

  /** Every candidate left after the removal is drawn by its own index. */
  lemma PickCovers(turnsTaken: nat, prev: seq<string>, i: nat)
    requires turnsTaken > 0 && |prev| > 0 && i < |Remaining(prev)|
    ensures Pick(turnsTaken, prev, i) == Remaining(prev)[i]
  {
    var possible := Remaining(prev);
    var n := |possible|;
    assert i % n == i;
    assert Pick(turnsTaken, prev, i) == possible[i % n];
  }

  /** chomp: one hit of 11 + strength below ascension 2 and 12 + strength
      from there, built with the worm as source so weak applies. */
  function Chomp(ascension: int, s: CState): (a: Attack)
    requires HasStrength(s)
    ensures a.hits == 1 && a.statuses.None? && !a.multiTarget
    ensures var d := (if ascension < 2 then 11 else 12) + StrengthOf(s);
            && ("weak" !in s.statuses ==> a.damage == d)
            && ("weak" in s.statuses ==> 4 * a.damage <= 3 * d < 4 * a.damage + 4)
  {
    if ascension < 2 then NewAttack(Some(11 + StrengthOf(s)), 1, None, None, false, Some(s.statuses))
    else NewAttack(Some(12 + StrengthOf(s)), 1, None, None, false, Some(s.statuses))
  }

  /** thrash: 5 more block, then one hit of 7 + strength, weak applying. */
  function AfterThrash(s: CState): (r: (CState, Attack))
    requires HasStrength(s)
    ensures r.0 == s.(curBlock := Some(BlockOf(s) + 5))
    ensures r.1 == NewAttack(Some(7 + StrengthOf(s)), 1, None, None, false, Some(s.statuses))
  {
    (s.(curBlock := Some(BlockOf(s) + 5)),
     NewAttack(Some(7 + StrengthOf(s)), 1, None, None, false, Some(s.statuses)))
  }

  /** The (block, strength) bellow adds at an ascension. */
  function BellowGain(ascension: int): (r: (int, int))
    ensures r.0 == 6 || r.0 == 9
    ensures 3 <= r.1 <= 5
    ensures ascension < 2 ==> r == (6, 3)
    ensures ascension >= 17 ==> r == (9, 5)
  {
    if ascension < 2 then (6, 3) else if ascension < 17 then (6, 4) else (9, 5)
  }

  /** bellow: block and strength grow by BellowGain, and the attack has no
      damage and no hits. */
  function AfterBellow(ascension: int, s: CState): (r: (CState, Attack))
    requires HasStrength(s)
    ensures HasStrength(r.0)
    ensures BlockOf(r.0) == BlockOf(s) + BellowGain(ascension).0
    ensures StrengthOf(r.0) == StrengthOf(s) + BellowGain(ascension).1
    ensures r.0.(curBlock := s.curBlock, permanents := s.permanents) == s
    ensures r.0.permanents.Keys == s.permanents.Keys
    ensures forall k :: k in s.permanents && k != "strength" ==> r.0.permanents[k] == s.permanents[k]
    ensures r.1.damage == 0 && r.1.hits == 0 && r.1.statuses.None?
  {
    var (b, st) := BellowGain(ascension);
    (s.(curBlock := Some(BlockOf(s) + b),
        permanents := s.permanents["strength" := Int(StrengthOf(s) + st)]),
     NewAttack(None, 1, None, None, false, Some(s.statuses)))
  }

  method Thrash(c: Creature) returns (a: Attack)
    requires HasStrength(c.State())
    modifies c, c.permanents
    ensures (c.State(), a) == AfterThrash(old(c.State()))
  {
    c.SetBlock(c.Block() + 5);
    var strength := c.permanents.Get("strength");
    a := NewAttack(Some(7 + strength.n), 1, None, None, false, Some(c.statuses.data));
  }

  method Bellow(c: Creature) returns (a: Attack)
    requires HasStrength(c.State())
    modifies c, c.permanents
    ensures (c.State(), a) == AfterBellow(c.ascension, old(c.State()))
  {
    var strength;
    if c.ascension < 2 {
      c.SetBlock(c.Block() + 6);
      strength := c.permanents.Get("strength");
      c.permanents.Set("strength", Int(strength.n + 3));
    } else if c.ascension < 17 {
      c.SetBlock(c.Block() + 6);
      strength := c.permanents.Get("strength");
      c.permanents.Set("strength", Int(strength.n + 4));
    } else {
      c.SetBlock(c.Block() + 9);
      strength := c.permanents.Get("strength");
      c.permanents.Set("strength", Int(strength.n + 5));
    }
    a := NewAttack(None, 1, None, None, false, Some(c.statuses.data));
  }

  /** JawWorm(hp=44, permanents=None, block=0) in act `act`: a creature with
      those values, then one bellow when act is 3 or more. */
  function WormStart(ascension: int, act: int, hp: int, permanents: Store, block: int): (r: CState)
    requires act >= 3 ==> IntOrAbsent(permanents, "strength")
    ensures HpOf(r) == hp && r.alive == (hp > 0) && r.turnsTaken == 0 && r.prevActions == []
    ensures HasStrength(r) || act < 3
    ensures act < 3 ==> BlockOf(r) == block && r.permanents == Seeded(permanents)
    ensures act >= 3 ==>
              && BlockOf(r) == block + BellowGain(ascension).0
              && StrengthOf(r) == Amount(permanents, "strength") + BellowGain(ascension).1
  {
    var s := CState(Some(hp), Some(block), Seeded(Admitted(map[])), Seeded(permanents), 0, hp > 0, [], 0);
    if act >= 3 then AfterBellow(ascension, s).0 else s
  }

  method NewJawWorm(ascension: int, act: int, hp: int, permanents: Option<Store>, block: int)
    returns (c: Creature)
    requires act >= 3 ==> IntOrAbsent(permanents.GetOr(map[]), "strength")
    ensures fresh(c) && fresh(c.statuses) && fresh(c.permanents) && c.Valid()
    ensures c.State() == WormStart(ascension, act, hp, permanents.GetOr(map[]), block)
    ensures c.Fixed() == Profile(JawWormKind, ascension, Some(hp), 0)
  {
    var initial := if permanents.None? then map[] else permanents.value;
    c := new Creature(Some(hp), Some(block), map[], initial, JawWormKind, ascension);
    if act >= 3 {
      var _ := Bellow(c);
    }
  }

  /** A 100-hp worm at ascension 20 in act 3 starts with strength 5 and
      block 9; chomp is then 17, thrash is 12 and takes block to 14, and a
      second bellow takes block to 23 and strength to 10. */
  lemma WormScenario()
    ensures var s := WormStart(20, 3, 100, map[], 0);
            && StrengthOf(s) == 5 && BlockOf(s) == 9
            && Equals(Chomp(20, s), IntOperand(17))
            && Equals(AfterThrash(s).1, IntOperand(12)) && BlockOf(AfterThrash(s).0) == 14
            && var t := AfterThrash(s).0;
               Equals(AfterBellow(20, t).1, IntOperand(0))
               && BlockOf(AfterBellow(20, t).0) == 23 && StrengthOf(AfterBellow(20, t).0) == 10
  {
  }
}
