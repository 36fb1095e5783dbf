/** The seed search: which outcome to look for, read from the keyword
    arguments, and the loop that plays one battle per seed from the same
    starting rosters until one ends that way. */
module Search {
  import opened Base
  import opened Creatures
  import opened Actions
  import opened SimulatorRules

  /** A keyword argument as the search reads it: its text as an f-string
      prints it, and its truth value. */
  datatype Arg = Arg(shown: string, truthy: bool)

  /** The search keywords: name to argument. */
  type SearchArgs = map<string, Arg>

  const NoCriteria := "Must provide a search criteria. Options: a_left_win, a_right_win"

  /** The message for both or neither outcome asked for; the two f-string
      pieces are joined without a space. */
  function BothOrNeither(left: Arg, right: Arg): string {
    "Cannot search for both/neither a left win and a right win."
    + "Got a_left_win: " + left.shown + ", a_right_win: " + right.shown
  }

  /** The outcome to search for (true: a left win). It is accepted exactly
      when one of the two keys is given, or both are given with opposite
      truth values, and it is a left win exactly when a_left_win is given
      and true; so a lone a_right_win asks for a right win whatever its
      value. */
  function SearchTarget(args: SearchArgs): (r: Result<bool>)
    ensures r.Ok? <==> ("a_left_win" in args) != ("a_right_win" in args)
                       || ("a_left_win" in args && "a_right_win" in args
                           && args["a_left_win"].truthy != args["a_right_win"].truthy)
    ensures r.Ok? ==> r.value == ("a_left_win" in args && args["a_left_win"].truthy)
    ensures r.Err? ==> r.msg == (if "a_left_win" in args
                                 then BothOrNeither(args["a_left_win"], args["a_right_win"])
                                 else NoCriteria)
  {
    if "a_left_win" in args && "a_right_win" in args then
      if args["a_left_win"].truthy != args["a_right_win"].truthy then Ok(args["a_left_win"].truthy)
      else Err(BothOrNeither(args["a_left_win"], args["a_right_win"]))
    else if "a_left_win" !in args && "a_right_win" !in args then
      Err(NoCriteria)
    else
      Ok(if "a_left_win" in args then args["a_left_win"].truthy else false)
  }

  /** The winner of each trial by seed: a battle from the starting board
      (a fresh copy of the rosters) with the draws that seed produces. */
  function Trials(cast: seq<Profile>, nl: nat, b0: seq<CState>, seeds: int -> (nat -> Draw), fuel: nat,
                  nullable: set<string>): int -> Option<bool>
    requires BoardTyped(cast, b0, nullable) && nl <= |b0|
  {
    (seed: int) => Battle(cast, nl, b0, 0, seeds(seed), Verdict(true, Some(true)), fuel, 0, nullable).winner
  }

  /** A trial that names a winner ends on a board, of the starting size,
      where every creature of the losing roster is dead (and, for a right
      win, some right creature lives). */
  lemma TrialMeaning(cast: seq<Profile>, nl: nat, b0: seq<CState>, seeds: int -> (nat -> Draw), fuel: nat,
                     nullable: set<string>, seed: int)
    requires BoardTyped(cast, b0, nullable) && nl <= |b0| && |b0| > 0
    ensures var e := Battle(cast, nl, b0, 0, seeds(seed), Verdict(true, Some(true)), fuel, 0, nullable);
            && Trials(cast, nl, b0, seeds, fuel, nullable)(seed) == e.winner
            && |e.board| == |b0|
            && (e.winner == Some(true) ==> AllDead(e.board, nl, |b0|))
            && (e.winner == Some(false) ==> AllDead(e.board, 0, nl) && !AllDead(e.board, nl, |b0|))
  {
    BattleWinnerMeaning(cast, nl, b0, 0, seeds(seed), Verdict(true, Some(true)), fuel, nullable);
  }

  /** _simulate_search_mp: the arguments' error, or the first seed among
      baseSeed .. baseSeed + numBattles - 1 whose trial ends as searched
      for (FirstSeed), or None when none does. */
  method SimulateSearch(cast: seq<Profile>, nl: nat, b0: seq<CState>, seeds: int -> (nat -> Draw),
                        fuel: nat, nullable: set<string>,
                        numBattles: int, baseSeed: int, args: SearchArgs)
    returns (r: Result<Option<int>>)
    requires BoardTyped(cast, b0, nullable) && nl <= |b0|
    ensures SearchTarget(args).Err? ==> r == Err(SearchTarget(args).msg)
    ensures SearchTarget(args).Ok? ==>
              r == Ok(FirstSeed(Trials(cast, nl, b0, seeds, fuel, nullable), baseSeed, numBattles,
                                SearchTarget(args).value))
  {
    var target := SearchTarget(args);
    if target.Err? {
      return Err(target.msg);
    }
    var found := SeedLoop(Trials(cast, nl, b0, seeds, fuel, nullable), numBattles, baseSeed, target.value);
    return Ok(found);
  }

  /** The first of the n seeds from base whose outcome is Some(want), if any. */
  function FirstSeed(outcome: int -> Option<bool>, base: int, n: int, want: bool): (r: Option<int>)
    ensures r.Some? ==> base <= r.value < base + n && outcome(r.value) == Some(want)
    ensures forall s :: base <= s < (if r.Some? then r.value else base + n) ==> outcome(s) != Some(want)
    decreases if n < 0 then 0 else n
  {
    if n <= 0 then None
    else if outcome(base) == Some(want) then Some(base)
    else FirstSeed(outcome, base + 1, n - 1, want)
  }

  /** The seed loop: one trial per seed from baseSeed on, at most
      numBattles of them, stopping at the first that ends with want. */
  method SeedLoop(outcome: int -> Option<bool>, numBattles: int, baseSeed: int, want: bool)
    returns (found: Option<int>)
    ensures found == FirstSeed(outcome, baseSeed, numBattles, want)
  {
    var seed := baseSeed;
    var i := 0;
    while i < numBattles
      invariant 0 <= i && seed == baseSeed + i
      invariant numBattles >= 0 ==> i <= numBattles
      invariant FirstSeed(outcome, baseSeed, numBattles, want) == FirstSeed(outcome, seed, numBattles - i, want)
    {
      var result := outcome(seed);
      if result == Some(want) {
        return Some(seed);
      }
      seed := seed + 1;
      i := i + 1;
    }
    return None;
  }
}
