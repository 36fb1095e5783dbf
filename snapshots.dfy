/** get_state: the snapshot of both rosters after a battle, name and hp
    of each living creature and the name of each dead one. */
module Snapshots {
  import opened Base
  import opened Creatures
  import opened SimulatorRules
  import opened Tallies

  /** The name a creature reports: its class name. */
  function NameOf(sp: Species): (r: string)
    ensures r == "Heart" <==> sp.HeartKind?
    ensures r == "JawWorm" <==> sp.JawWormKind?
    ensures r == "Creature" <==> sp.Generic?
  {
    match sp
    case Generic(_, _) => "Creature"
    case HeartKind => "Heart"
    case JawWormKind => "JawWorm"
  }

  /** The snapshot of slots lo .. hi-1. */
  function SideOf(cast: seq<Profile>, b: seq<CState>, lo: nat, hi: nat): (r: SideState)
    requires |cast| == |b| && lo <= hi <= |b|
    ensures |r.alive| == LivingCount(b, lo, hi)
    ensures |r.alive| + |r.dead| == hi - lo
    decreases hi - lo
  {
    if lo == hi then SideState([], [])
    else
      var r := SideOf(cast, b, lo, hi - 1);
      if b[hi - 1].alive then r.(alive := r.alive + [(NameOf(cast[hi - 1].species), HpOf(b[hi - 1]))])
      else r.(dead := r.dead + [NameOf(cast[hi - 1].species)])
  }

  /** get_state: the left roster is slots 0 .. nl-1, the right the rest. */
  function Snapshot(cast: seq<Profile>, b: seq<CState>, nl: nat): (r: BattleState)
    requires |cast| == |b| && nl <= |b|
    ensures |r.left.alive| + |r.left.dead| == nl
    ensures |r.right.alive| + |r.right.dead| == |b| - nl
  {
    BattleState(SideOf(cast, b, 0, nl), SideOf(cast, b, nl, |b|))
  }

  /** Every slot is listed once, in order: a living creature at position
      "living creatures before it" of the alive list with its name and hp,
      a dead one at position "dead creatures before it" of the dead list. */
  lemma {:induction false} SideOfPlaces(cast: seq<Profile>, b: seq<CState>, lo: nat, hi: nat, j: nat)
    requires |cast| == |b| && lo <= j < hi <= |b|
    ensures var r := SideOf(cast, b, lo, hi);
            var before := LivingCount(b, lo, j);
            if b[j].alive then
              before < |r.alive| && r.alive[before] == (NameOf(cast[j].species), HpOf(b[j]))
            else
              (j - lo) - before < |r.dead| && r.dead[(j - lo) - before] == NameOf(cast[j].species)
    decreases hi - lo
  {
    if j < hi - 1 {
      SideOfPlaces(cast, b, lo, hi - 1, j);
    } else {
      assert LivingCount(b, lo, hi - 1) + |SideOf(cast, b, lo, hi - 1).dead| == hi - 1 - lo;
    }
  }

  /** The snapshot agrees with the stop check: the left side has won exactly
      when the right alive list is empty, the right side exactly when the
      left alive list is empty and the right one is not. */
  lemma SnapshotVerdict(cast: seq<Profile>, b: seq<CState>, nl: nat)
    requires |cast| == |b| && nl <= |b|
    ensures var s := Snapshot(cast, b, nl);
            && (Check(b, nl).leftWon == Some(true) <==> s.right.alive == [])
            && (Check(b, nl).leftWon == Some(false) <==> s.left.alive == [] && s.right.alive != [])
            && (Check(b, nl).keep <==> s.left.alive != [] && s.right.alive != [])
  {
    var s := Snapshot(cast, b, nl);
    assert s.right.alive == [] <==> AllDead(b, nl, |b|);
    assert s.left.alive == [] <==> AllDead(b, 0, nl);
  }
}
