# A combat simulator for a deck-building card game, modelled in Dafny

The simulator plays out battles between two rosters of creatures: the left
roster acts first, then the right. Each creature carries hit points, block,
two modifier stores and a move policy:

- The Statuses store holds time-limited effects, and its integer entries
  count down.
- The Permanents store holds lasting effects.
- The move policy picks the next action.

A creature's turn runs in this order:

1. Start-of-turn resolution.
2. Its action. This produces an attack that hits one random living enemy,
   or every living enemy.
3. The hit loop. Block absorbs damage, and the vulnerable, intangible,
   invincible and buffer rules apply. The target retaliates with thorns and
   flame barrier.
4. The attack's statuses land on the target.
5. Beat-of-death damage on the actor.
6. End-of-turn resolution: regeneration, then poison and the status
   countdown.

A battle ends when one roster is entirely dead. Many seeded battles are then
tallied per creature name, or searched for the first seed that gives a
wanted winner. Two enemies are modelled in full:

- The Heart: debilitate, blood shots, echo and an escalating buff.
- The Jaw Worm: chomp, thrash and bellow, with its no-repeat rules.

Modules:

- `Base`: Python's `None`, `Result` and list objects, `list.index` and
  `list.pop`.
- `Modifiers` (modifier_dict.py): the two stores are classes over a
  `map<string, Val>`. `Val` is an integer or `None`.
- `Attacks` (attack.py): the attack value, with the weak reduction and
  `__eq__`.
- `Creatures` and `CreatureLaws` (creature.py):
  - The creature is a class, and every method is proved against a function
    on its abstract state `CState`.
  - The laws of those functions are lemmas.
- `Actions`: `take_action`, dispatched on the creature's species.
- `Heart` (heart.py) and `JawWorm` (jaw_worm.py): each species' policy,
  moves and construction.
- `Utils` (utils.py): `RandomChooser`, a class whose list of elements is
  shared with its caller.
- `Simulation` and `SimulatorRules` (simulator.py):
  - The simulator is a class over the creature objects.
  - Each step of `resolve_one_creature_turn` and `one_battle` is a method
    proved equal to a function on the board.
  - The board is the sequence of creature states, left roster first.
- `Snapshots` (`get_state`), `Tallies` (`merge_results`, `update_results`)
  and `Search` (`_simulate_search_mp`).

Randomness is an argument. A `Draw` carries three things for one creature
turn:

- the Heart's coin;
- the index of the Jaw Worm's pick;
- the index of the single target.

A battle takes one draw per turn, `draws: nat -> Draw`. The game settings
(ascension, act) are parameters.

Behaviour of the code that is easy to misread; the model follows the code as written:

- `end_turn_resolution` counts statuses down by itself. Each key goes
  through `statuses[k] -= 1`. The store's `turn_start` pass is never called
  by the simulator; it is modelled on its own as `Statuses.TurnStart`.
- `end_turn_resolution` also increments `turns_taken`. A creature therefore
  gains two turns per battle turn (`SimulatorRules.ResolveTurnCount`), so
  the Heart buffs on its turns 3, 6, … counting from 0, not on every third
  `turns_taken` value (`SimulatorRules.HeartBattleCadence`).
- `current_turn_taken_damage` is set to 0 and never updated. The
  invincible cap therefore limits each `take_damage` call, not a turn's
  total (`CreatureLaws.InvincibleCapIsPerCall`).
- An attack's hit count is stored as given; it is not forced to be at least
  1.
- When a right-roster creature acts, it takes beat-of-death damage from its
  own side's total, and only when the left side's total is positive
  (`SimulatorRules.RightActorBeatUsesOwnSide`). This is kept as written.
- Only living enemies are targeted.
- The right roster is checked first. A double knock-out therefore counts as
  a left win.

## Model

| member | source | states |
|---|---|---|
| Base.IndexOf | creature.py:142 | `list.index`: the first position holding x, or None exactly when x is absent |
| Base.RemoveAt | creature.py:143 | `list.pop(i)`: one element shorter, elements before i kept, later ones shifted down by one |
| Modifiers.Seeded | modifier_dict.py:11-14 | the constructor seeding adds strength and dexterity at 0 only where absent and keeps every other entry |
| Modifiers.StatusWrite | modifier_dict.py:41-44 | a Statuses write stores the value, except an integer ≤ 0 removes the key; no other key changes |
| Modifiers.Admitted | modifier_dict.py:36-44 | a fresh Statuses keeps exactly the initial entries that are not integers ≤ 0 |
| Modifiers.DecayEntry | modifier_dict.py:48-54 | one decay step keeps None, turns n into n-1, and drops n exactly when n ≤ 1 |
| Modifiers.Decayed | modifier_dict.py:46-54 | the decay pass keeps exactly the keys whose entry survives the step, each at its decayed value |
| Modifiers.DecayedTimes | modifier_dict.py:46-54 | repeated decay passes never add a key |
| Modifiers.IntEntryLifetime | modifier_dict.py:50-54 | an entry n is present at n-j after j < n passes, and absent after n passes or more |
| Modifiers.NullEntryPersists | modifier_dict.py:48-49 | a None entry survives any number of passes unchanged |
| Modifiers.StatusesSeedValue | modifier_dict.py:6-14 | a fresh Statuses holds strength and dexterity: the initial value if it survives admission, else 0 |
| Modifiers.StatusesInitialKeys | modifier_dict.py:36-44 | apart from the two seeded names, a fresh Statuses holds exactly the admitted initial keys |
| Modifiers.Statuses.constructor | modifier_dict.py:36-39 | the default is 0 when None is passed; the data is the admitted, then seeded, initial dict |
| Modifiers.Statuses.Attr | modifier_dict.py:16-22 | attribute access finds the stored value, or fails (AttributeError) exactly when the key is absent |
| Modifiers.Statuses.Get | modifier_dict.py:29-32 | `store[k]` returns the stored value and changes nothing, or inserts the default and returns it |
| Modifiers.Statuses.Set | modifier_dict.py:41-44 | `store[k] = v` leaves the store as StatusWrite says |
| Modifiers.Statuses.Delete | heart.py:67-68 | `del store[k]` on a present key removes exactly that key |
| Modifiers.Statuses.TurnStart | modifier_dict.py:46-54 | the in-place pass over a snapshot of the entries leaves the Decayed store |
| Modifiers.Permanents.constructor | modifier_dict.py:57-59 | default None; the data is the initial dict with strength and dexterity seeded |
| Modifiers.Permanents.Attr | modifier_dict.py:16-22 | attribute access finds the stored value, or fails exactly when the key is absent |
| Modifiers.Permanents.Get | modifier_dict.py:29-32 | `store[k]` returns the stored value, or inserts None and returns it |
| Modifiers.Permanents.Set | modifier_dict.py:57-59 | a Permanents write stores every value, integers ≤ 0 included |
| Attacks.NewAttack | attack.py:27-43 | no damage gives 0 damage and 0 hits; otherwise the hits are as given, and damage is floor(3d/4) when the source is weak |
| Attacks.WeakNeverIncreases | attack.py:42-43 | the weak reduction keeps a non-negative damage between 0 and its old value |
| Attacks.WeakTenIsSeven | attack.py:42-43 | a weak source building a 10-damage attack gets 7 |
| Attacks.NoDamageEqualsZero | attack.py:36-53 | an attack without damage compares equal to the integer 0 |
| Attacks.EqualsIgnoresTargeting | attack.py:45-51 | attack equality ignores the target and the multi-target flag on either side |
| Attacks.EqualsIsEquivalence | attack.py:45-51 | attack equality is reflexive, symmetric and transitive |
| Attacks.EqualAttacksEqualSameInts | attack.py:45-54 | two equal attacks compare equal to exactly the same integers |
| Attacks.Equals | attack.py:45-54 | an attack equals itself; two equal attacks have the same damage × hits; an attack with no hits equals exactly the integer 0; any other operand is unequal |
| Creatures.AfterHpWrite | creature.py:116-124 | the hp setter: with buffer, one charge is spent and hp and alive are kept; otherwise hp is set, and at ≤ 0 it becomes 0 and alive becomes false; nothing else changes |
| Creatures.HpOf | creature.py:112-114 | hp reads raw_hp, and 0 when it is None |
| Creatures.BlockOf | creature.py:126-128 | block reads cur_block, and 0 when it is None |
| Creatures.HitDamage | creature.py:162-167 | under intangible at most 1; with neither status the attack's damage; under vulnerable alone ⌊1.5 d⌋; a non-negative damage stays non-negative, and without intangible it is never lowered |
| Creatures.Retaliation | creature.py:169-176 | 0 with neither thorns nor flame_barrier; the one present value when only one is; at least each of them when both are non-negative |
| Creatures.AfterStartTurn | creature.py:192-199 | only block may change; nothing changes on the first turn or under blur or barricade; otherwise block becomes 0 |
| Creatures.AfterStatusTicks | creature.py:215-222 | every integer status counts down once (removed at 0); block, turns and history stay; without poison nothing else changes; with poison and no buffer, hp drops by poison clamped at 0 and the creature dies at 0 |
| Creatures.AfterEndTurn | creature.py:201-223 | turns_taken grows by one and statuses count down; block, history and buff count stay; without regeneration and poison nothing else changes |
| Creatures.Pruned | creature.py:134-148 | no weights stay no weights; on success the names list is shorter by the number of names removed, and so is a weights list |
| Creatures.AfterDamage | creature.py:178-189 | take_damage changes only hp, alive, block and the buffer count |
| Creatures.AfterHit | creature.py:153-176 | take_hit leaves a creature that can be hit again |
| Creatures.TicksPendingStep | creature.py:215-222 | one iteration of the status loop on a pending key moves the partial pass one key forward |
| Creatures.TickOne | creature.py:218-222 | one iteration of the status loop on key k: k counts down (removed at 0), every other status stays, turns and block stay, and hp changes only for poison |
| Creatures.TicksPendingEnds | creature.py:215-222 | the partial pass starts at the old state and, with no key left, is the whole status pass |
| Creatures.Creature.constructor | creature.py:30-48 | the new creature's state: the given hp and block, the admitted statuses, the seeded permanents, 0 turns, alive iff hp > 0, empty history |
| Creatures.Creature.SetHp | creature.py:116-124 | the state becomes AfterHpWrite of the old state |
| Creatures.Creature.SetBlock | creature.py:130-132 | only block changes, to the value written |
| Creatures.Creature.TakeDamage | creature.py:178-189 | the state becomes AfterDamage of the old state |
| Creatures.Creature.TakeHit | creature.py:153-176 | the new state and the retaliation returned are AfterHit of the old state |
| Creatures.Creature.StartTurnResolution | creature.py:192-199 | the state becomes AfterStartTurn; the result is the alive flag |
| Creatures.Creature.EndTurnResolution | creature.py:201-223 | the state becomes AfterEndTurn; the result is the alive flag |
| Creatures.Creature.TickStatuses | creature.py:215-222 | the loop over a snapshot of the status keys leaves AfterStatusTicks of the old state |
| Creatures.Creature.TickStatus | creature.py:218-222 | one key's iteration leaves TickOne of the old state |
| Creatures.Creature.RecordAction | creature.py:229-230 | turns_taken grows by one and the name is appended to the history |
| Creatures.Creature.AdjustPossibleActions | creature.py:134-148 | the caller's lists become Pruned of their old contents, and the outcome is Pruned's (ValueError on a missing name) |
| CreatureLaws.HpWrites | creature.py:116-124 | any run of hp writes leaves a writable state |
| CreatureLaws.BufferAbsorbsEveryWrite | creature.py:118-120 | with buffer b, k writes leave buffer b-k and hp and alive unchanged |
| CreatureLaws.HpWriteWithoutBuffer | creature.py:121-124 | without buffer, a write v > 0 sets hp to v; v ≤ 0 sets hp to 0 and kills |
| CreatureLaws.DeathIsFinal | creature.py:116-124 | a dead creature stays dead through hp writes, damage, hits, start of turn and end of turn |
| CreatureLaws.DamageAbsorbedByBlock | creature.py:188-189 | damage d ≤ block lowers block by d and changes nothing else |
| CreatureLaws.DamagePiercesBlock | creature.py:179-187 | damage beyond block empties block and takes the excess off hp, killing at ≤ 0 |
| CreatureLaws.InvincibleCapsOneCall | creature.py:181-185 | under invincible i, one call takes at most i off hp |
| CreatureLaws.InvincibleCapIsPerCall | creature.py:178-187 | two capped calls take 2i off hp: the cap does not accumulate |
| CreatureLaws.HitDamageRules | creature.py:162-167 | vulnerable gives floor(1.5d); intangible then caps at 1 |
| CreatureLaws.RetaliationIgnoresDamage | creature.py:169-176 | the retaliation is the defender's thorns plus flame_barrier, whatever the damage |
| CreatureLaws.StartTurnEffects | creature.py:192-199 | first turn: nothing changes; later, block resets to 0 unless blur or barricade; nothing else ever changes |
| CreatureLaws.EndTurnEffects | creature.py:210-223 | without buffer or poison: regeneration heals, capped at max hp, and hp is otherwise kept; turns_taken grows by 1; the statuses are decayed; the permanents are kept |
| CreatureLaws.PoisonBeforeDecay | creature.py:217-222 | poison's current value is taken off hp before poison counts down |
| CreatureLaws.ScenarioBlockThenHp | unittests.py:96-112 | 100 hp, block 10, damage 0, 5 and 10, block reset to 10, damage 10 and 1: hp/block 100/10, 100/5, 95/0, 95/0, 94/0 |
| CreatureLaws.PruneOne | creature.py:140-145 | removing one name succeeds exactly when it is listed, dropping it and its weight |
| CreatureLaws.PrunedLengths | creature.py:140-145 | a successful removal of n names shortens both lists by n and keeps them parallel |
| Actions.PickAction | creature.py:150-151 | the picked name is in the species' catalog |
| Actions.Produce | creature.py:228 | running a producer never changes hp, alive, turns_taken or the history |
| Actions.AfterAction | creature.py:225-231 | turns_taken grows by one, the picked name is appended to prev_actions, and hp and liveness are untouched |
| Actions.TakeAction | creature.py:225-231 | the creature's new state and the attack are AfterAction of its old state |
| Actions.ActionBookkeeping | creature.py:225-231 | take_action adds one turn and appends the picked name; hp and alive are untouched |
| Actions.ActionKeepsReady | creature.py:225-231 | after take_action the creature can take its next action |
| Heart.Pick | heart.py:30-43 | the Heart always picks one of its four moves |
| Heart.PickRules | heart.py:30-43 | debilitate exactly on turn 0; buff exactly on turns 3, 6, …; otherwise echo follows blood_shots and vice versa; the coin decides only in the remaining case |
| Heart.Debilitate | heart.py:45-54 | a no-damage, all-enemy attack applying 2 weak, 2 vulnerable and 2 frail; it equals 0 |
| Heart.BloodShots | heart.py:56-59 | 2 + strength per hit, 12 hits below ascension 4 and 15 from it |
| Heart.Echo | heart.py:61-64 | one hit of 40 (45 from ascension 4) + strength |
| Heart.AfterBuff | heart.py:66-83 | strength_down dropped; strength +2 (+12 on the 4th buff, +52 later); artifact 2, then beat_of_death +1, then painful_stabs; count +1; nothing else changes |
| Heart.Buff | heart.py:66-83 | the Heart's state becomes AfterBuff; the attack is Attack() |
| Heart.Buffed | heart.py:66-83 | n buffs advance the buff count by n |
| Heart.StrengthAfterBuffs | heart.py:69-80 | n buffs add 2n strength for n ≤ 3, then 18 + 52(n-4); artifact from the 1st, beat_of_death +1 from the 2nd, painful_stabs from the 3rd |
| Heart.BuffGain | heart.py:69-80 | every buff adds at least 2 strength; exactly 2 before the 4th buff; at least 12 from the 4th on |
| Heart.HeartStart | heart.py:9-28 | hp 750 below ascension 9; beat_of_death 1 / invincible 300 below ascension 19, else 2 / 200; strength 0 |
| Heart.NewHeart | heart.py:9-28 | a fresh creature whose state is HeartStart |
| Heart.FreshHeartMoves | unittests.py:145-151 | at ascension 20 the moves compare equal to 0, 30, 45 and 0 |
| Heart.HeartBuffTrajectory | unittests.py:169-253 | six buffs from a fresh Heart reach strength 2, 4, 6, 18, 70, 122; the second raises beat_of_death to 3 and the third adds painful_stabs |
| JawWorm.Banned | jaw_worm.py:48-53 | the move to remove: the last move if it was bellow or chomp, thrash after two thrashes, else none |
| JawWorm.Remaining | jaw_worm.py:46-58 | the candidates without the banned move: two of them when one is banned, all three otherwise |
| JawWorm.Pick | jaw_worm.py:33-60 | the worm always picks one of its three moves |
| JawWorm.PickRules | jaw_worm.py:44-58 | chomp on turn 0; never bellow or chomp twice running; never a third thrash running |
| JawWorm.PickCovers | jaw_worm.py:56-60 | every remaining candidate is reachable by a draw |
| JawWorm.Chomp | jaw_worm.py:63-66 | one hit of 11 (12 from ascension 2) + strength, weak-reduced |
| JawWorm.AfterThrash | jaw_worm.py:68-70 | block +5, then one weak-reduced hit of 7 + strength |
| JawWorm.AfterBellow | jaw_worm.py:72-84 | block +6/+6/+9 and strength +3/+4/+5 by ascension band; no damage; nothing else changes |
| JawWorm.BellowGain | jaw_worm.py:72-84 | block +6 or +9 and strength +3 to +5; (6, 3) below ascension 2 and (9, 5) from ascension 17 |
| JawWorm.Thrash | jaw_worm.py:68-70 | the worm's state and the attack are AfterThrash |
| JawWorm.Bellow | jaw_worm.py:72-84 | the worm's state and the attack are AfterBellow |
| JawWorm.WormStart | jaw_worm.py:11-30 | the given hp and block, seeded permanents; from act 3 one bellow has already run |
| JawWorm.NewJawWorm | jaw_worm.py:11-30 | a fresh creature whose state is WormStart |
| JawWorm.WormScenario | unittests.py:270-278 | a 100-hp worm in act 3 at ascension 20 has strength 5 and block 9; chomp 17, thrash 12 with block 14, bellow to block 23 and strength 10 |
| Utils.Scaled | utils.py:81-83 | dividing by the total keeps the length |
| Utils.ScaledSumsToOne | utils.py:81-83 | weights with a non-zero sum, divided by it, sum to 1 |
| Utils.ScaledSum | utils.py:81-83 | the sum of the divided weights is the sum divided |
| Utils.RandomChooser.Init | utils.py:58-59 | the chooser holds the caller's list object and the weights |
| Utils.RandomChooser.New | utils.py:41-59 | ValueError exactly when the lengths differ or the weights do not sum to 1, with the message for each |
| Utils.RandomChooser.Choose | utils.py:61-85 | the "all chosen" error on an empty list; ValueError from random.choices, nothing removed, when the weights do not sum to a positive total; else the drawn element is removed from both lists at its first occurrence and the rest renormalised (ZeroDivisionError when they sum to 0) |
| Utils.Chosen | utils.py:74-76 | the removal index holds the drawn element |
| Utils.ChoiceRemovesOne | utils.py:74-79 | a choice removes exactly one occurrence of the chosen element |
| Utils.PositiveSum | utils.py:82 | a non-empty list of positive weights has a positive sum |
| Utils.NextWeights | utils.py:78-83 | a pick leaves one weight fewer |
| Utils.PositiveStep | utils.py:74-83 | with all weights positive, the total is positive, and after a pick the rest is empty or has a positive total and stays all positive after renormalising |
| Utils.PickThenRest | utils.py:71-85 | with all weights positive, a run of picks is the first pick followed by the run on the reduced and renormalised lists |
| Utils.PicksEmpty | utils.py:71-85 | with every weight positive, n successive choices over n elements succeed and empty the list; one more choice then fails |
| Utils.AfterPicks | utils.py:71-85 | a run of choose calls on given pick indices: when every call succeeds, each removes one element and what is left comes from the original list |
| Simulation.Simulator.constructor | simulator.py:35-46 | the rosters as given and turn 0 |
| Simulation.Simulator.StartTurnAt | simulator.py:71 | only the actor's slot changes, to AfterStartTurn |
| Simulation.Simulator.TakeActionAt | simulator.py:76 | only the actor's slot changes, as AfterAction says |
| Simulation.Simulator.TakeHitAt | simulator.py:94 | only the target's slot changes, as AfterHit says, and its retaliation is returned |
| Simulation.Simulator.TakeDamageAt | simulator.py:96 | only the actor's slot changes, as AfterDamage says |
| Simulation.Simulator.EndTurnAt | simulator.py:115 | only the actor's slot changes, as AfterEndTurn says |
| Simulation.Simulator.ApplyStatusAt | simulator.py:104-108 | an integer is added to the target's status (absent as 0, ≤ 0 removes); None is set outright |
| Simulation.Simulator.HitOnce | simulator.py:94-99 | the board becomes OneHit; the result is the target's alive flag |
| Simulation.Simulator.HitRun | simulator.py:92-99 | the board becomes HitLoop over the attack's hits |
| Simulation.Simulator.LandStatuses | simulator.py:101-108 | the board becomes StatusesLanded |
| Simulation.Simulator.StrikeTargets | simulator.py:90-108 | the board becomes Strike over the targets |
| Simulation.Simulator.FinishTurn | simulator.py:90-115 | the board becomes Finish |
| Simulation.Simulator.ActAt | simulator.py:74-115 | the board becomes Act |
| Simulation.Simulator.ResolveOneCreatureTurn | simulator.py:64-115 | the board becomes Resolve |
| Simulation.Simulator.RunSide | simulator.py:172-177 | the board, draws used and verdict become SideRun's |
| Simulation.Simulator.TakeSlot | simulator.py:173-177 | the board, draws used and verdict become Slot's |
| Simulation.Simulator.PlaySides | simulator.py:171-184 | the board, draws used and verdict become Round's |
| Simulation.Simulator.PlayRound | simulator.py:171-185 | as PlaySides, and the turn counter grows by 1 |
| Simulation.Simulator.OneBattle | simulator.py:163-193 | the winner, the final board and the turn counter are Battle's from turn 0 |
| SimulatorRules.TypedStart | creature.py:192-199 | start of turn keeps a creature typed |
| SimulatorRules.TypedHpWrite | creature.py:116-124 | an hp write keeps a creature typed |
| SimulatorRules.TypedDamage | creature.py:178-189 | take_damage keeps a creature typed and its history |
| SimulatorRules.TypedBuff | heart.py:66-83 | buff keeps a Heart typed |
| SimulatorRules.TypedBellow | jaw_worm.py:72-84 | bellow keeps a worm typed |
| SimulatorRules.TypedProduce | creature.py:228 | every producer keeps its creature typed and returns a typed attack |
| SimulatorRules.TypedAction | creature.py:225-231 | take_action keeps the creature typed, returns a typed attack and leaves a non-empty history |
| SimulatorRules.TypedDecay | creature.py:217-222 | the decay of statuses keeps a creature typed |
| SimulatorRules.TypedTicks | creature.py:217-222 | the status pass keeps a creature typed |
| SimulatorRules.TypedTurnCount | creature.py:213 | changing turns_taken keeps a creature typed |
| SimulatorRules.TypedEndTurn | creature.py:201-223 | a typed creature can run end_turn_resolution without a TypeError and stays typed |
| SimulatorRules.BeatTotalSplit | simulator.py:54-61 | a roster's beat-of-death total is the sum over its two halves |
| SimulatorRules.BeatTotalBounds | simulator.py:54-61 | the total is 0 without beat_of_death and non-negative when every entry is |
| SimulatorRules.BoardBeats | simulator.py:54-61 | on a typed board both rosters' beat_of_death entries are integers |
| SimulatorRules.BeatTotal | simulator.py:54-61 | 0 for a roster without beat_of_death; non-negative when every beat_of_death is |
| SimulatorRules.RightActorBeatUsesOwnSide | simulator.py:110-113 | a right actor takes its own side's total, and only when the left total is positive |
| SimulatorRules.BeatDamage | simulator.py:110-113 | a left actor is hit exactly when the right total is positive, a right actor exactly when the left total is; the damage is the right total in both cases |
| SimulatorRules.Enemies | simulator.py:78 | the enemy range lies inside the board and excludes the actor |
| SimulatorRules.Living | simulator.py:82 | exactly the living slots of the range, in roster order |
| SimulatorRules.LivingEmpty | simulator.py:82-86 | the living list is empty exactly when no creature of the range is alive |
| SimulatorRules.TargetsApart | simulator.py:78-88 | every target is a board slot other than the actor |
| SimulatorRules.Targets | simulator.py:82-88 | every living enemy for a multi-target attack, else exactly one of them |
| SimulatorRules.OneHit | simulator.py:94-96 | one hit changes only the target's and the actor's slots |
| SimulatorRules.HitLoop | simulator.py:90-99 | the hit loop changes only the target's and the actor's slots |
| SimulatorRules.HitThenRest | simulator.py:92-99 | the loop is one hit, then stop if the target died, else the remaining hits |
| SimulatorRules.OneHitTyped | simulator.py:94-96 | one hit keeps the board typed and the actor's history and turn count |
| SimulatorRules.HitLoopTyped | simulator.py:90-99 | the hit loop keeps the board typed and the actor's history and turn count |
| SimulatorRules.NoRetaliationSparesActor | simulator.py:94-96 | without thorns or flame_barrier on the target the actor is untouched |
| SimulatorRules.TargetIgnoresActor | simulator.py:92-99 | the target's fate does not depend on the actor's state |
| SimulatorRules.HitsAddUp | simulator.py:92-99 | with nothing to soften them, n hits take n × damage off the target's hp |
| SimulatorRules.ApplyEntry | simulator.py:104-108 | None overwrites; an integer adds to the entry (absent as 0) and a sum ≤ 0 removes it |
| SimulatorRules.Applied | simulator.py:101-108 | keys outside the attack's statuses are unchanged; the others are as ApplyEntry says |
| SimulatorRules.DebilitateTwice | simulator.py:104-106 | debilitate landing twice on a fresh target gives 4 weak, 4 vulnerable and 4 frail |
| SimulatorRules.AppliedExceptStep | simulator.py:103-108 | one iteration of the status loop applies exactly its key |
| SimulatorRules.AppliedExceptEnds | simulator.py:103-108 | before the loop nothing is applied |
| SimulatorRules.TypedApplied | simulator.py:104-108 | typed statuses land without a TypeError and keep the target typed |
| SimulatorRules.StatusesLanded | simulator.py:101-108 | only the target's statuses change, and the board stays typed |
| SimulatorRules.Strike | simulator.py:90-108 | only the targets and the actor change; the actor keeps its history and turn count; the board stays typed |
| SimulatorRules.StrikeFirst | simulator.py:90-99 | each target is a hittable slot other than the actor, and its hit loop keeps the board typed |
| SimulatorRules.StrikeRest | simulator.py:90-108 | after one target's hits and statuses, the rest of the strike continues from that board |
| SimulatorRules.Finish | simulator.py:90-115 | the board stays typed, the actor ends with one more turn, and only the actor and the targets change |
| SimulatorRules.Act | simulator.py:74-115 | keeps the board typed; the actor gains 2 turns when some enemy lives, else 1 |
| SimulatorRules.ActFrame | simulator.py:74-115 | a turn changes only the actor and the enemy roster; every other slot, the actor's teammates included, stays as it was |
| SimulatorRules.ActTyped | simulator.py:76 | after take_action the board and the attack are typed |
| SimulatorRules.ActSteps | simulator.py:74-115 | with no living enemy the turn stops after take_action; otherwise it strikes the targets and finishes |
| SimulatorRules.Resolve | simulator.py:64-115 | a creature's turn keeps the board typed |
| SimulatorRules.ResolveTurnCount | creature.py:192-231 | one turn adds 0 to the actor's turns_taken when it starts dead, 1 when no enemy lives (take_action alone), 2 otherwise (take_action and end_turn_resolution) |
| SimulatorRules.HeartBattleCadence | heart.py:34-35 | at turns_taken 2k, the count after k turns that each found a living enemy (ResolveTurnCount), the Heart buffs exactly when k is a positive multiple of 3 |
| SimulatorRules.LivingCount | simulator.py:123-126 | at most the size of the range are alive |
| SimulatorRules.AllDeadMeans | simulator.py:123-126 | "all dead" holds exactly when no slot of the range is alive |
| SimulatorRules.CheckVerdicts | simulator.py:117-127 | stop iff a winner is named; left wins iff the right roster is dead; right wins iff the left is dead and the right is not; keep going iff both rosters have someone alive |
| SimulatorRules.Check | simulator.py:117-127 | the battle stops exactly when a winner is named; with an empty right roster the left side wins |
| SimulatorRules.Slot | simulator.py:173-177 | a dead slot is skipped without a draw; a living one takes its turn with one draw; the verdict is taken after it |
| SimulatorRules.SideRun | simulator.py:172-177 | a roster loop ends on the verdict of its last slot, and changes nothing when it is empty |
| SimulatorRules.SlotThenRest | simulator.py:172-177 | a roster loop is one slot, then a break on a stop verdict, else the rest of the loop |
| SimulatorRules.Round | simulator.py:170-185 | a round keeps the board typed and ends on the verdict of its last board |
| SimulatorRules.Battle | simulator.py:168-193 | the turn counter advances by at most the round budget |
| SimulatorRules.NextRound | simulator.py:170-185 | a round that is played advances the turn counter |
| SimulatorRules.BattleStep | simulator.py:170-185 | a battle that goes on is one round, then the rest with one round less |
| SimulatorRules.RoundThenRest | simulator.py:170-185 | the same step for a caller that has already counted the round |
| SimulatorRules.FirstRound | simulator.py:170-185 | the first round leaves a typed board and its verdict, and the rest of the battle continues from there |
| SimulatorRules.BattleWinner | simulator.py:168-193 | a named winner is the one the stop check gives on the final board |
| SimulatorRules.BattleWinnerMeaning | simulator.py:168-193 | a left win leaves the right roster dead; a right win leaves the left roster dead and someone on the right alive |
| SimulatorRules.EmptyRostersNeverFinish | simulator.py:168-185 | with both rosters empty the loop never stops |
| Snapshots.SideOf | simulator.py:137-157 | a roster's snapshot lists each creature once: as many alive entries as living creatures |
| Snapshots.Snapshot | simulator.py:129-161 | the left and right parts list the two rosters in full |
| Snapshots.SideOfPlaces | simulator.py:152-156 | each living creature appears as (name, hp) and each dead one by name, in roster order |
| Snapshots.SnapshotVerdict | simulator.py:117-161 | the snapshot agrees with the stop check: a left win exactly when the right alive list is empty, a right win exactly when only the left one is, and the battle goes on exactly when neither is |
| Snapshots.NameOf | creature.py:109-110 | the class name: "Heart" exactly for the Heart, "JawWorm" exactly for the Jaw Worm, "Creature" exactly for the base class |
| Tallies.Entries | simulator.py:246-247 | the appearances merge_results reads: the living (name, hp) pairs, then each dead name with 0 |
| Tallies.AddEntry | simulator.py:251-262 | the name is present afterwards with hp added and count one higher (from nothing if new); every other name keeps its tally |
| Tallies.Tallied | simulator.py:244-262 | every name already in the table and every name the appearances mention is in the result |
| Tallies.TalliedByName | simulator.py:244-262 | per name, the tally gains the hp and the number of that name's appearances, and the name is present iff it was or appears |
| Tallies.CountsSplit | simulator.py:244-262 | appearances and hp sums add over concatenation |
| Tallies.CombineSideCommutes | simulator.py:272-282 | update_results on one side does not depend on the order of the two tables |
| Tallies.CombineSide | simulator.py:272-282 | the names are those of either table; a name in only one table keeps that table's tally; a name in both gets the sum of its two tallies |
| Tallies.UpdateStep | simulator.py:274-282 | either branch of update_results for one new name writes the merge with that name included |
| Tallies.TalliedSplit | simulator.py:264-282 | tallying two batches separately and merging equals tallying them together |
| Tallies.CombineEmpty | simulator.py:272-282 | merging an empty table changes nothing |
| Tallies.PlusZero | simulator.py:275 | a name new to the base table receives the other table's tally unchanged |
| Tallies.CombineStep | simulator.py:273-282 | adding one name the second table lacked changes only that name |
| Tallies.Combined | simulator.py:272-282 | the sides are the base's; a side add lacks is unchanged; a side in both holds the names of both |
| Tallies.ResultDict.constructor | simulator.py:217 | `{"left": {}, "right": {}}` |
| Tallies.ResultDict.MergeResults | simulator.py:229-262 | the left snapshot is tallied into "left" and the right one into "right" |
| Tallies.ResultDict.MergeEntries | simulator.py:247-262 | one side's loop tallies its appearances in order |
| Tallies.ResultDict.UpdateResults | simulator.py:264-283 | the table becomes the side-by-side combination with the added table |
| Tallies.ResultDict.UpdateSide | simulator.py:273-282 | one side's loop merges the other table's names into it |
| Search.SearchTarget | simulator.py:342-364 | accepted exactly when one key is given, or both are given with opposite truth values; the target is a_left_win's truth (false when only a_right_win is given); the both/neither error carries the full message, with the two arguments' printed values, and the missing-criteria error its own |
| Search.TrialMeaning | simulator.py:368-373 | a trial's outcome is its battle's winner, and a named winner means the loser's roster is all dead on the final board |
| Search.SimulateSearch | simulator.py:330-376 | the arguments' error, or the first seed among the given number from the base seed whose battle ends with the wanted winner |
| Search.FirstSeed | simulator.py:366-376 | the seed found gives the wanted outcome and no earlier seed does |
| Search.SeedLoop | simulator.py:366-376 | the loop returns FirstSeed |

## Left out

- Parallel simulation (`simulate` with a process pool, `_simulate_mp`) and the keyword dispatch of `simulation_search` are not modelled. Their building blocks are: the tallies, the merge of worker results and the seed loop.
- Logging, printing, `__repr__` and `__contains__` are not modelled. The creature's `name` property is covered by `Snapshots.NameOf`.
- Random numbers are arguments (`Draw`: the Heart's coin, the Jaw Worm's pick index, the single-target index; `RandomChooser.Choose`'s pick index). Seeding the generator becomes a function from seed to draws. The probability distributions (50/50, the weights 0.45/0.25/0.3, `random.choices` weights) are not modelled.
- `copy.deepcopy` of the simulator: every trial starts from the same initial board value.
- Floating point is not modelled:
  - `RandomChooser` weights are exact reals, so its `sum == 1` check and its divisions are exact.
  - Attacks.NewAttack and Creatures.HitDamage compute `floor(d * 0.75)` and `floor(d * 1.5)` exactly on integers. Python's float products agree only while they are exact.
- The Jaw Worm's weight renormalisation in `adjust_possible_actions` rebinds a local name and changes no caller's list. The model keeps the caller's weights as they were and drops the division.
- The attribute routing of `Creature.__getattr__`/`__setattr__` through the lists of known status and permanent names is written out for the names the core uses: strength, buffer, beat_of_death and the rest go to the permanents store.
- The game settings (ascension) and game status (act) are parameters, not global state.
- `safe_add` and `increment_status` in utils.py are not used by the core and are not modelled.
- Simulation.Simulator.OneBattle: `one_battle` loops until one side is dead. The model runs at most a given number of rounds and reports no winner when the budget runs out.
- The base class's action catalog is modelled as fixed attacks produced without side effects; user-supplied producers are not modelled.
- Python TypeErrors and IndexErrors on arithmetic with None or on an empty history are excluded by preconditions. Over a battle, a typing invariant on the board keeps them excluded.
- SimulatorRules.HeartBattleCadence: the count of 2k after k turns is tied to a battle one turn at a time by `SimulatorRules.ResolveTurnCount`, not by an induction over a whole battle; a turn with no living enemy adds 1, after which the cadence shifts.
- Utils.RandomChooser.Choose: the pick index is any index of the list; `random.choices` never draws an element of weight 0, and the model does not exclude it.
- Search.SearchTarget: an argument's printed text is an input (`Arg.shown`); Python's `str` of arbitrary objects is not modelled.
- Aliasing:
  - `update_results` stores the added table's inner dicts by reference; the model treats them as values.
  - `RandomChooser` rebinds its weights list after the first choice; the weights are a value, while the elements list is shared with the caller.
  - The simulator's creatures are required to be distinct objects.
