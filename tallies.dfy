/** How the simulator adds battles up: per-name tallies of hit points and
    appearances (merge_results) and the merge of two tally tables
    (update_results). */
module Tallies {
  /** One roster's part of the snapshot: (name, hp) for each living
      creature and the name of each dead one, both in roster order. */
  datatype SideState = SideState(alive: seq<(string, int)>, dead: seq<string>)

  datatype BattleState = BattleState(left: SideState, right: SideState)

  /** A tally: summed hit points and number of appearances. */
  datatype Tally = Tally(totalHp: int, count: nat)

  /** One side of the results table: name to tally. */
  type SideTally = map<string, Tally>

  function Plus(t: Tally, u: Tally): Tally {
    Tally(t.totalHp + u.totalHp, t.count + u.count)
  }

  /** A name's tally, with an absent name reading as nothing seen. */
  function Lookup(m: SideTally, name: string): Tally {
    if name in m then m[name] else Tally(0, 0)
  }

  /** One appearance: a new name starts at (hp, 1), a known one adds hp and 1. */
  function AddEntry(m: SideTally, e: (string, int)): (r: SideTally)
    ensures r.Keys == m.Keys + {e.0}
    ensures r[e.0].totalHp == Lookup(m, e.0).totalHp + e.1 && r[e.0].count == Lookup(m, e.0).count + 1
    ensures forall k :: k in m && k != e.0 ==> r[k] == m[k]
  {
    m[e.0 := Plus(Lookup(m, e.0), Tally(e.1, 1))]
  }

  /** The appearances merge_results reads from one side of a snapshot:
      the living with their hp, then the dead with 0. */
  function Entries(s: SideState): (es: seq<(string, int)>)
    ensures |es| == |s.alive| + |s.dead|
    ensures forall i :: 0 <= i < |s.alive| ==> es[i] == s.alive[i]
    ensures forall i :: 0 <= i < |s.dead| ==> es[|s.alive| + i] == (s.dead[i], 0)
  {
    s.alive + seq(|s.dead|, i requires 0 <= i < |s.dead| => (s.dead[i], 0))
  }

  /** The table after the appearances es, in order. */
  function Tallied(m: SideTally, es: seq<(string, int)>): (r: SideTally)
    ensures m.Keys <= r.Keys
    ensures forall i :: 0 <= i < |es| ==> es[i].0 in r
    decreases |es|
  {
    if es == [] then m else AddEntry(Tallied(m, es[..|es| - 1]), es[|es| - 1])
  }

  /** How often name appears in es. */
  function Occurrences(es: seq<(string, int)>, name: string): nat
    decreases |es|
  {
    if es == [] then 0
    else Occurrences(es[..|es| - 1], name) + (if es[|es| - 1].0 == name then 1 else 0)
  }

  /** The hit points es records for name. */
  function HpSum(es: seq<(string, int)>, name: string): int
    decreases |es|
  {
    if es == [] then 0
    else HpSum(es[..|es| - 1], name) + (if es[|es| - 1].0 == name then es[|es| - 1].1 else 0)
  }

  /** Name by name, the table after es holds what it held before plus the
      hp and the number of appearances es records; a name is present
      exactly when it was before or es mentions it. */
  lemma {:induction false} TalliedByName(m: SideTally, es: seq<(string, int)>, name: string)
    ensures name in Tallied(m, es) <==> name in m || Occurrences(es, name) > 0
    ensures Lookup(Tallied(m, es), name).totalHp == Lookup(m, name).totalHp + HpSum(es, name)
    ensures Lookup(Tallied(m, es), name).count == Lookup(m, name).count + Occurrences(es, name)
    decreases |es|
  {
    if es != [] {
      TalliedByName(m, es[..|es| - 1], name);
    }
  }

  lemma {:induction false} CountsSplit(es1: seq<(string, int)>, es2: seq<(string, int)>, name: string)
    ensures Occurrences(es1 + es2, name) == Occurrences(es1, name) + Occurrences(es2, name)
    ensures HpSum(es1 + es2, name) == HpSum(es1, name) + HpSum(es2, name)
    decreases |es2|
  {
    if es2 == [] {
      assert es1 + es2 == es1;
    } else {
      assert (es1 + es2)[..|es1 + es2| - 1] == es1 + es2[..|es2| - 1];
      assert (es1 + es2)[|es1 + es2| - 1] == es2[|es2| - 1];
      CountsSplit(es1, es2[..|es2| - 1], name);
    }
  }

  /** update_results on one side: a name in either table gets the sum of
      its two tallies. */
  function CombineSide(m1: SideTally, m2: SideTally): (r: SideTally)
    ensures r.Keys == m1.Keys + m2.Keys
    ensures forall n :: n in m1 && n !in m2 ==> r[n] == m1[n]
    ensures forall n :: n in m2 && n !in m1 ==> r[n] == m2[n]
    ensures forall n :: n in m1 && n in m2 ==> r[n] == Plus(m1[n], m2[n])
  {
    map name | name in m1.Keys + m2.Keys :: Plus(Lookup(m1, name), Lookup(m2, name))
  }

  /** The order of the two tables does not matter. */
  lemma CombineSideCommutes(m1: SideTally, m2: SideTally)
    ensures CombineSide(m1, m2) == CombineSide(m2, m1)
  {
    assert forall name :: Plus(Lookup(m1, name), Lookup(m2, name)) == Plus(Lookup(m2, name), Lookup(m1, name));
  }

  /** Tallying two runs of appearances separately, from an empty table for
      the second, and merging the tables is tallying them one after the
      other: the pool workers' partial tables add up to the table a single
      process would have built. */
  lemma TalliedSplit(m: SideTally, es1: seq<(string, int)>, es2: seq<(string, int)>)
    ensures CombineSide(Tallied(m, es1), Tallied(map[], es2)) == Tallied(m, es1 + es2)
  {
    var l := CombineSide(Tallied(m, es1), Tallied(map[], es2));
    var r := Tallied(m, es1 + es2);
    forall name
      ensures (name in l <==> name in r) && (name in l ==> l[name] == r[name])
    {
      TalliedByName(m, es1, name);
      TalliedByName(map[], es2, name);
      TalliedByName(m, es1 + es2, name);
      CountsSplit(es1, es2, name);
    }
  }

  /** Merging an empty table changes nothing. */
  lemma CombineEmpty(m: SideTally)
    ensures CombineSide(m, map[]) == m
  {
    var l := CombineSide(m, map[]);
    forall k | k in l
      ensures l[k].totalHp == m[k].totalHp && l[k].count == m[k].count
    {
    }
  }

  lemma PlusZero(t: Tally)
    ensures Plus(Tally(0, 0), t) == t
  {
  }

  /** Adding one name that the second table lacks changes only that name. */
  lemma CombineStep(m: SideTally, done: SideTally, name: string, t: Tally)
    requires name !in done
    ensures CombineSide(m, done[name := t])
            == CombineSide(m, done)[name := Plus(Lookup(CombineSide(m, done), name), t)]
  {
    var l := CombineSide(m, done[name := t]);
    var r := CombineSide(m, done)[name := Plus(Lookup(CombineSide(m, done), name), t)];
    forall k | k in l
      ensures k in r && l[k].totalHp == r[k].totalHp && l[k].count == r[k].count
    {
    }
    assert l.Keys == r.Keys;
  }

  /** One name of update_results' inner loop, either branch: the table it
      writes is the merge with that name added to the merged part. */
  lemma UpdateStep(m: SideTally, done: SideTally, name: string, t: Tally, table: SideTally)
    requires name !in done && table == CombineSide(m, done)
    ensures (if name !in table then table[name := t]
             else table[name := Tally(table[name].totalHp + t.totalHp, table[name].count + t.count)])
            == CombineSide(m, done[name := t])
  {
    CombineStep(m, done, name, t);
    if name !in table {
      PlusZero(t);
    }
  }

  /** update_results on the whole table: every side of add is merged into
      the same side of base; other sides stay. */
  function Combined(base: map<string, SideTally>, add: map<string, SideTally>): (r: map<string, SideTally>)
    ensures r.Keys == base.Keys
    ensures forall side :: side in base && side !in add ==> r[side] == base[side]
    ensures forall side :: side in base && side in add ==> r[side].Keys == base[side].Keys + add[side].Keys
  {
    map side | side in base :: if side in add then CombineSide(base[side], add[side]) else base[side]
  }

  /** The results dictionary, side name to table, changed in place. */
  class ResultDict {
    var sides: map<string, SideTally>

    /** `{"left": {}, "right": {}}`. */
    constructor ()
      ensures sides == map["left" := map[], "right" := map[]]
    {
      sides := map["left" := map[], "right" := map[]];
    }

    /** merge_results: the left snapshot into "left", then the right into
        "right", each as its alive entries then its dead ones. */
    method MergeResults(state: BattleState)
      requires "left" in sides && "right" in sides
      modifies this
      ensures sides == old(sides)["left" := Tallied(old(sides)["left"], Entries(state.left))]
                                 ["right" := Tallied(old(sides)["right"], Entries(state.right))]
    {
      MergeEntries("left", Entries(state.left));
      MergeEntries("right", Entries(state.right));
    }

    /** One side's loop of merge_results. */
    method MergeEntries(side: string, es: seq<(string, int)>)
      requires side in sides
      modifies this
      ensures sides == old(sides)[side := Tallied(old(sides)[side], es)]
    {
      var i := 0;
      while i < |es|
        invariant i <= |es|
        invariant sides == old(sides)[side := Tallied(old(sides)[side], es[..i])]
      {
        var table := sides[side];
        var name := es[i].0;
        if name !in table {
          table := table[name := Tally(es[i].1, 1)];
        } else {
          table := table[name := Tally(table[name].totalHp + es[i].1, table[name].count + 1)];
        }
        assert es[..i + 1][..i] == es[..i];
        sides := sides[side := table];
        i := i + 1;
      }
      assert es[..i] == es;
    }

    /** update_results: every side of add merged into this table; a side
        of add that this table lacks is a KeyError in the source. */
    method UpdateResults(add: map<string, SideTally>)
      requires add.Keys <= sides.Keys
      modifies this
      ensures sides == Combined(old(sides), add)
    {
      var todo := add.Keys;
      while todo != {}
        invariant todo <= add.Keys
        invariant sides.Keys == old(sides).Keys
        invariant forall side :: side in sides ==>
                    sides[side] == if side in add && side !in todo
                                   then CombineSide(old(sides)[side], add[side]) else old(sides)[side]
        decreases todo
      {
        var side :| side in todo;
        UpdateSide(side, add[side]);
        todo := todo - {side};
      }
    }

    /** The inner loop of update_results over one side's names. */
    method UpdateSide(side: string, extra: SideTally)
      requires side in sides
      modifies this
      ensures sides == old(sides)[side := CombineSide(old(sides)[side], extra)]
    {
      var todo := extra.Keys;
      ghost var done: SideTally := map[];
      CombineEmpty(old(sides)[side]);
      while todo != {}
        invariant todo <= extra.Keys
        invariant done.Keys == extra.Keys - todo
        invariant forall name :: name in done ==> done[name] == extra[name]
        invariant sides == old(sides)[side := CombineSide(old(sides)[side], done)]
        decreases todo
      {
        var name :| name in todo;
        var table := sides[side];
        UpdateStep(old(sides)[side], done, name, extra[name], table);
        if name !in table {
          table := table[name := extra[name]];
        } else {
          table := table[name := Tally(table[name].totalHp + extra[name].totalHp, table[name].count + extra[name].count)];
        }
        sides := sides[side := table];
        done := done[name := extra[name]];
        todo := todo - {name};
      }
      assert done == extra;
    }
  }
}
