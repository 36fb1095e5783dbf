/** The Heart: its move policy over turns_taken / prev_actions, its four
    moves, and its construction. */
module Heart {
  import opened Base
  import opened Modifiers
  import opened Attacks
  import opened Creatures

  /** The action catalog, in insertion order. */
  const Moves: seq<string> := ["debilitate", "blood_shots", "echo", "buff"]

  /** The cases in which pick_action does not index prev_actions[-1]:
      turn 0 and the buff turns. */
  predicate PickReady(turnsTaken: nat, prev: seq<string>) {
    turnsTaken == 0 || (turnsTaken >= 3 && turnsTaken % 3 == 0) || |prev| > 0
  }

  /** pick_action. `coin` stands for `random.random() >= 0.5`; the source
      indexes prev_actions[-1] on every turn but turn 0 and the buff turns. */
  function Pick(turnsTaken: nat, prev: seq<string>, coin: bool): (a: string)
    requires PickReady(turnsTaken, prev)
    ensures a in Moves
  {
    if turnsTaken == 0 then "debilitate"
    else if turnsTaken % 3 == 0 && turnsTaken >= 3 then "buff"
    else if prev[|prev| - 1] == "blood_shots" then "echo"
    else if prev[|prev| - 1] == "echo" then "blood_shots"
    else if coin then "echo"
    else "blood_shots"
  }

  /** The policy: debilitate first, buff on every third turn from the third,
      otherwise echo and blood_shots alternate, and the coin decides only
      right after debilitate or buff (or any other name). */
  lemma PickRules(turnsTaken: nat, prev: seq<string>, coin: bool)
    requires PickReady(turnsTaken, prev)
    ensures turnsTaken == 0 <==> Pick(turnsTaken, prev, coin) == "debilitate"
    ensures Pick(turnsTaken, prev, coin) == "buff" <==> turnsTaken >= 3 && turnsTaken % 3 == 0
    ensures turnsTaken > 0 && turnsTaken % 3 != 0 && prev[|prev| - 1] == "blood_shots" ==>
              Pick(turnsTaken, prev, coin) == "echo"
    ensures turnsTaken > 0 && turnsTaken % 3 != 0 && prev[|prev| - 1] == "echo" ==>
              Pick(turnsTaken, prev, coin) == "blood_shots"
    ensures Pick(turnsTaken, prev, true) != Pick(turnsTaken, prev, false) ==>
              && turnsTaken > 0 && turnsTaken % 3 != 0
              && prev[|prev| - 1] != "blood_shots" && prev[|prev| - 1] != "echo"
    ensures Pick(turnsTaken, prev, coin) != "debilitate" ==> turnsTaken > 0
  {
  }

  /** debilitate: no damage, no hits, every enemy gets 2 weak, 2 vulnerable
      and 2 frail. */
  function Debilitate(): (a: Attack)
    ensures a.damage == 0 && a.hits == 0 && a.multiTarget
    ensures a.statuses.Some? && a.statuses.value.Keys == {"weak", "vulnerable", "frail"}
    ensures forall k :: k in a.statuses.value ==> a.statuses.value[k] == Int(2)
    ensures Equals(a, IntOperand(0))
  {
    NewAttack(None, 1, Some(map["weak" := Int(2), "vulnerable" := Int(2), "frail" := Int(2)]),
              None, true, None)
  }

  /** blood_shots: 2 + strength per hit, 12 hits below ascension 4 and 15
      from there; never weak-reduced. */
  function BloodShots(ascension: int, s: CState): (a: Attack)
    requires HasStrength(s)
    ensures a.damage == 2 + StrengthOf(s)
    ensures a.hits == (if ascension < 4 then 12 else 15)
    ensures a.statuses.None? && !a.multiTarget
  {
    if ascension < 4 then NewAttack(Some(2 + StrengthOf(s)), 12, None, None, false, None)
    else NewAttack(Some(2 + StrengthOf(s)), 15, None, None, false, None)
  }

  /** echo: one hit of 40 + strength below ascension 4, 45 + strength from
      there; never weak-reduced. */
  function Echo(ascension: int, s: CState): (a: Attack)
    requires HasStrength(s)
    ensures a.damage == (if ascension < 4 then 40 else 45) + StrengthOf(s)
    ensures a.hits == 1 && a.statuses.None? && !a.multiTarget
  {
    if ascension < 4 then NewAttack(Some(40 + StrengthOf(s)), 1, None, None, false, None)
    else NewAttack(Some(45 + StrengthOf(s)), 1, None, None, false, None)
  }

  /** What buff needs: an integer strength and, on the second buff, an
      integer beat_of_death to add to. */
  predicate BuffReady(s: CState) {
    && HasStrength(s)
    && (s.buffCount == 1 ==> "beat_of_death" in s.permanents && s.permanents["beat_of_death"].Int?)
  }

  /** The strength one buff adds, by the number of earlier buffs. */
  function BuffGain(count: nat): (r: int)
    ensures r >= 2
    ensures count != 3 && count <= 3 ==> r == 2
    ensures count >= 3 ==> r >= 12
  {
    if count == 3 then 12 else if count > 3 then 52 else 2
  }

  /** buff: strength_down is dropped, strength grows, the count-specific
      effect is applied and the buff count grows by one. */
  function AfterBuff(s: CState): (r: CState)
    requires BuffReady(s)
    ensures HasStrength(r) && StrengthOf(r) == StrengthOf(s) + BuffGain(s.buffCount)
    ensures r.buffCount == s.buffCount + 1
    ensures r.statuses == s.statuses - {"strength_down"}
    ensures s.buffCount == 0 ==> r.permanents == s.permanents["strength" := r.permanents["strength"]]["artifact" := Int(2)]
    ensures s.buffCount == 1 ==>
              r.permanents == s.permanents["strength" := r.permanents["strength"]]
                                          ["beat_of_death" := Int(s.permanents["beat_of_death"].n + 1)]
    ensures s.buffCount == 2 ==> r.permanents == s.permanents["strength" := r.permanents["strength"]]["painful_stabs" := Null]
    ensures s.buffCount >= 3 ==> r.permanents == s.permanents["strength" := r.permanents["strength"]]
    ensures r.(statuses := s.statuses, permanents := s.permanents, buffCount := s.buffCount) == s
  {
    var str := StrengthOf(s) + 2;
    var pm := s.permanents["strength" := Int(str)];
    var pm' :=
      if s.buffCount == 0 then pm["artifact" := Int(2)]
      else if s.buffCount == 1 then pm["beat_of_death" := Int(pm["beat_of_death"].n + 1)]
      else if s.buffCount == 2 then pm["painful_stabs" := Null]
      else if s.buffCount == 3 then pm["strength" := Int(str + 10)]
      else pm["strength" := Int(str + 50)];
    s.(statuses := s.statuses - {"strength_down"}, permanents := pm', buffCount := s.buffCount + 1)
  }

  /** The buff method on a Heart. Returns Attack(). */
  method Buff(c: Creature) returns (a: Attack)
    requires BuffReady(c.State())
    modifies c, c.statuses, c.permanents
    ensures c.State() == AfterBuff(old(c.State()))
    ensures a == NewAttack(None, 1, None, None, false, None)
  {
    if c.statuses.Contains("strength_down") {
      c.statuses.Delete("strength_down");
    }
    ghost var s0 := old(c.State());
    assert c.statuses.data == s0.statuses - {"strength_down"};
    var strength := c.permanents.Get("strength");
    c.permanents.Set("strength", Int(strength.n + 2));
    ghost var str := StrengthOf(s0) + 2;
    ghost var pm := s0.permanents["strength" := Int(str)];
    assert c.permanents.data == pm;
    if c.buffCount == 0 {
      c.permanents.Set("artifact", Int(2));
      assert c.permanents.data == pm["artifact" := Int(2)];
    } else if c.buffCount == 1 {
      var beat := c.permanents.Get("beat_of_death");
      c.permanents.Set("beat_of_death", Int(beat.n + 1));
      assert c.permanents.data == pm["beat_of_death" := Int(pm["beat_of_death"].n + 1)];
    } else if c.buffCount == 2 {
      c.permanents.Set("painful_stabs", Null);
      assert c.permanents.data == pm["painful_stabs" := Null];
    } else if c.buffCount == 3 {
      strength := c.permanents.Get("strength");
      c.permanents.Set("strength", Int(strength.n + 10));
      assert c.permanents.data == pm["strength" := Int(str + 10)];
    } else {
      strength := c.permanents.Get("strength");
      c.permanents.Set("strength", Int(strength.n + 50));
      assert c.permanents.data == pm["strength" := Int(str + 50)];
    }
    c.buffCount := c.buffCount + 1;
    a := NewAttack(None, 1, None, None, false, None);
  }

  /** An integer strength and an integer beat_of_death: what every buff
      needs, whatever the count. */
  predicate Buffable(s: CState) {
    HasStrength(s) && "beat_of_death" in s.permanents && s.permanents["beat_of_death"].Int?
  }

  /** n buffs in a row. */
  function Buffed(s: CState, n: nat): (r: CState)
    requires Buffable(s)
    ensures Buffable(r) && r.buffCount == s.buffCount + n
    decreases n
  {
    if n == 0 then s else AfterBuff(Buffed(s, n - 1))
  }

  /** The strength a fresh Heart gains over n buffs: 2, 4, 6, then 18,
      and 52 more per buff after that. */
  lemma {:induction false} StrengthAfterBuffs(s: CState, n: nat)
    requires Buffable(s) && s.buffCount == 0
    ensures StrengthOf(Buffed(s, n)) == StrengthOf(s) + (if n <= 3 then 2 * n else 18 + 52 * (n - 4))
    ensures n >= 2 ==> Buffed(s, n).permanents["beat_of_death"] == Int(s.permanents["beat_of_death"].n + 1)
    ensures n >= 1 ==> "artifact" in Buffed(s, n).permanents && Buffed(s, n).permanents["artifact"] == Int(2)
    ensures n >= 3 ==> "painful_stabs" in Buffed(s, n).permanents
    ensures n <= 1 ==> Buffed(s, n).permanents["beat_of_death"] == s.permanents["beat_of_death"]
    decreases n
  {
    if n > 0 {
      StrengthAfterBuffs(s, n - 1);
    }
  }

  /** Heart(hp=800, block=0) under the configured ascension: hp is forced to
      750 below ascension 9; beat_of_death / invincible are 1 / 300 below
      ascension 19 and 2 / 200 from there; nothing else is set. */
  function HeartStart(ascension: int, hp: int, block: int): (r: CState)
    ensures HpOf(r) == (if ascension < 9 then 750 else hp) && BlockOf(r) == block
    ensures r.alive == (HpOf(r) > 0) && r.turnsTaken == 0 && r.prevActions == [] && r.buffCount == 0
    ensures HasStrength(r) && StrengthOf(r) == 0
    ensures "beat_of_death" in r.permanents && "invincible" in r.permanents
    ensures r.permanents["beat_of_death"] == Int(if ascension < 19 then 1 else 2)
    ensures r.permanents["invincible"] == Int(if ascension < 19 then 300 else 200)
    ensures r.statuses.Keys == {"strength", "dexterity"}
  {
    var hp' := if ascension < 9 then 750 else hp;
    var pm := Seeded(map[]);
    var pm' :=
      if ascension < 19 then pm["beat_of_death" := Int(1)]["invincible" := Int(300)]
      else pm["beat_of_death" := Int(2)]["invincible" := Int(200)];
    CState(Some(hp'), Some(block), Seeded(Admitted(map[])), pm', 0, hp' > 0, [], 0)
  }

  method NewHeart(ascension: int, hp: int, block: int) returns (c: Creature)
    ensures fresh(c) && fresh(c.statuses) && fresh(c.permanents) && c.Valid()
    ensures c.State() == HeartStart(ascension, hp, block)
    ensures c.Fixed() == Profile(HeartKind, ascension, Some(HpOf(c.State())), 0)
  {
    var hp' := hp;
    if ascension < 9 {
      hp' := 750;
    }
    c := new Creature(Some(hp'), Some(block), map[], map[], HeartKind, ascension);
    if ascension < 19 {
      c.permanents.Set("beat_of_death", Int(1));
      c.permanents.Set("invincible", Int(300));
    } else {
      c.permanents.Set("beat_of_death", Int(2));
      c.permanents.Set("invincible", Int(200));
    }
  }

  /** The Heart's moves at the default ascension (20), as compared to
      integers: debilitate 0, blood_shots 2 x 15, echo 45, buff 0. */
  lemma FreshHeartMoves(hp: int)
    ensures var s := HeartStart(20, hp, 0);
            && Equals(Debilitate(), IntOperand(0))
            && Equals(BloodShots(20, s), IntOperand(2 * 15))
            && Equals(Echo(20, s), IntOperand(45))
            && Equals(NewAttack(None, 1, None, None, false, None), IntOperand(0))
  {
  }

  /** From a fresh Heart at ascension 20, six buffs give strength 2, 4, 6,
      18, 70, 122, and the second raises beat_of_death to 3. */
  lemma HeartBuffTrajectory(hp: int)
    ensures var s := HeartStart(20, hp, 0);
            && StrengthOf(Buffed(s, 1)) == 2 && StrengthOf(Buffed(s, 2)) == 4
            && StrengthOf(Buffed(s, 3)) == 6 && StrengthOf(Buffed(s, 4)) == 18
            && StrengthOf(Buffed(s, 5)) == 70 && StrengthOf(Buffed(s, 6)) == 122
            && Buffed(s, 2).permanents["beat_of_death"] == Int(3)
            && "painful_stabs" in Buffed(s, 3).permanents
  {
    var s := HeartStart(20, hp, 0);
    StrengthAfterBuffs(s, 1);
    StrengthAfterBuffs(s, 2);
    StrengthAfterBuffs(s, 3);
    StrengthAfterBuffs(s, 4);
    StrengthAfterBuffs(s, 5);
    StrengthAfterBuffs(s, 6);
  }
}
