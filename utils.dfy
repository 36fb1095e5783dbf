/** RandomChooser: picks elements without replacement from two parallel
    lists, elements and their weights, popping each pick from both. */
module Utils {
  import opened Base

  const AllChosen := "All elements have been chosen"
  const LengthMismatch := "The lists elements and weights must have the same length"
  const NotNormalised := "The weights must sum up to 1"
  const ZeroDivision := "float division by zero"
  const NoWeight := "Total of weights must be greater than zero"

  /** The sum of a weight list. */
  function Sum(ws: seq<real>): real
    decreases |ws|
  {
    if ws == [] then 0.0 else Sum(ws[..|ws| - 1]) + ws[|ws| - 1]
  }

  /** Every weight divided by total. */
  function Scaled(ws: seq<real>, total: real): (r: seq<real>)
    requires total != 0.0
    ensures |r| == |ws|
  {
    seq(|ws|, j requires 0 <= j < |ws| => ws[j] / total)
  }

  /** Dividing by the sum makes the weights sum to 1: after a successful
      choose that leaves weights, they are normalised again. */
  lemma ScaledSumsToOne(ws: seq<real>)
    requires Sum(ws) != 0.0
    ensures Sum(Scaled(ws, Sum(ws))) == 1.0
  {
    var t := Sum(ws);
    ScaledSum(ws, t);
    assert t / t == 1.0;
  }

  lemma {:induction false} ScaledSum(ws: seq<real>, total: real)
    requires total != 0.0
    ensures Sum(Scaled(ws, total)) == Sum(ws) / total
    decreases |ws|
  {
    if ws != [] {
      var init := ws[..|ws| - 1];
      assert Scaled(ws, total)[..|ws| - 1] == Scaled(init, total);
      ScaledSum(init, total);
    }
  }

  class RandomChooser {
    /** The caller's list itself: each pick is removed from it in place. */
    const elements: PyList<string>
    var weights: seq<real>

    /** The lists stay parallel. */
    predicate Valid()
      reads this, elements
    {
      |elements.items| == |weights|
    }

    constructor Init(elements: PyList<string>, weights: seq<real>)
      requires |elements.items| == |weights| && Sum(weights) == 1.0
      ensures this.elements == elements && this.weights == weights
      ensures Valid()
    {
      this.elements := elements;
      this.weights := weights;
    }

    /** __init__: a ValueError when the two lists differ in length or the
        weights do not sum to 1, otherwise a chooser over the caller's own
        list. */
    static method New(elements: PyList<string>, weights: seq<real>) returns (r: Result<RandomChooser>)
      ensures r.Err? <==> |elements.items| != |weights| || Sum(weights) != 1.0
      ensures r.Err? ==> r.msg == if |elements.items| != |weights| then LengthMismatch else NotNormalised
      ensures r.Ok? ==> fresh(r.value) && r.value.elements == elements && r.value.weights == weights
                        && r.value.Valid()
    {
      if |elements.items| != |weights| {
        return Err(LengthMismatch);
      }
      if Sum(weights) != 1.0 {
        return Err(NotNormalised);
      }
      var c := new RandomChooser.Init(elements, weights);
      return Ok(c);
    }

    /** choose: on an empty list the "All elements have been chosen" error;
        random.choices refuses weights whose total is not positive, before
        anything is removed; otherwise the element the draw lands on
        (position pick modulo the length) is removed at its first occurrence
        from both lists and the remaining weights are divided by their sum,
        which fails when that sum is 0 (after the removal). */
    method Choose(pick: nat) returns (r: Result<string>)
      requires Valid()
      modifies this, elements
      ensures Valid()
      ensures old(elements.items) == [] ==> r == Err(AllChosen) && elements.items == [] && weights == old(weights)
      ensures old(elements.items) != [] && Sum(old(weights)) <= 0.0 ==>
                r == Err(NoWeight) && elements.items == old(elements.items) && weights == old(weights)
      ensures old(elements.items) != [] && Sum(old(weights)) > 0.0 ==>
                var i := Chosen(old(elements.items), pick);
                var rest := RemoveAt(old(weights), i);
                && elements.items == RemoveAt(old(elements.items), i)
                && (if rest != [] && Sum(rest) == 0.0
                    then r == Err(ZeroDivision) && weights == rest
                    else r == Ok(old(elements.items)[i])
                         && weights == if rest == [] then [] else Scaled(rest, Sum(rest)))
    {
      if |elements.items| == 0 {
        return Err(AllChosen);
      }
      if Sum(weights) <= 0.0 {
        return Err(NoWeight);
      }
      var chosen := elements.items[pick % |elements.items|];
      var index := IndexOf(elements.items, chosen).value;
      elements.items := RemoveAt(elements.items, index);
      weights := RemoveAt(weights, index);
      if weights != [] {
        var total := Sum(weights);
        if total == 0.0 {
          return Err(ZeroDivision);
        }
        weights := Scaled(weights, total);
      }
      return Ok(chosen);
    }
  }

  /** Where a pick lands: the first occurrence of the element at position
      pick modulo the length. */
  function Chosen(items: seq<string>, pick: nat): (i: nat)
    requires items != []
    ensures i < |items| && items[i] == items[pick % |items|]
    ensures forall j :: 0 <= j < i ==> items[j] != items[i]
  {
    IndexOf(items, items[pick % |items|]).value
  }

  /** A pick takes exactly one copy of the chosen element out of the list
      and leaves every other entry. */
  lemma ChoiceRemovesOne(items: seq<string>, pick: nat)
    requires items != []
    ensures var i := Chosen(items, pick);
            multiset(RemoveAt(items, i)) + multiset{items[i]} == multiset(items)
  {
    var i := Chosen(items, pick);
    assert items == items[..i] + [items[i]] + items[i + 1..];
  }

  /** Weights that are all positive have a positive sum when there is one. */
  lemma {:induction false} PositiveSum(ws: seq<real>)
    requires forall j :: 0 <= j < |ws| ==> ws[j] > 0.0
    ensures ws != [] ==> Sum(ws) > 0.0
    decreases |ws|
  {
    if ws != [] {
      PositiveSum(ws[..|ws| - 1]);
    }
  }

  /** The weights left after a successful choose removed position i. */
  function NextWeights(ws: seq<real>, i: nat): (r: seq<real>)
    requires i < |ws|
    requires RemoveAt(ws, i) == [] || Sum(RemoveAt(ws, i)) != 0.0
    ensures |r| == |ws| - 1
  {
    var rest := RemoveAt(ws, i);
    if rest == [] then [] else Scaled(rest, Sum(rest))
  }

  /** The element list after a run of choose calls, each as Choose states
      it, or None once one of them raises. */
  function AfterPicks(items: seq<string>, ws: seq<real>, picks: seq<nat>): (r: Option<seq<string>>)
    requires |items| == |ws|
    ensures r.Some? ==> |r.value| + |picks| == |items|
    ensures r.Some? ==> forall x :: x in r.value ==> x in items
    decreases |picks|
  {
    if picks == [] then Some(items)
    else if items == [] || Sum(ws) <= 0.0 then None
    else
      var i := Chosen(items, picks[0]);
      var rest := RemoveAt(ws, i);
      if rest != [] && Sum(rest) == 0.0 then None
      else AfterPicks(RemoveAt(items, i), NextWeights(ws, i), picks[1..])
  }

  /** Positive weights stay positive through a pick, and neither the total
      check nor the renormalisation fails on them. */
  lemma PositiveStep(ws: seq<real>, i: nat)
    requires i < |ws| && forall j :: 0 <= j < |ws| ==> ws[j] > 0.0
    ensures Sum(ws) > 0.0
    ensures RemoveAt(ws, i) == [] || Sum(RemoveAt(ws, i)) > 0.0
    ensures forall j :: 0 <= j < |NextWeights(ws, i)| ==> NextWeights(ws, i)[j] > 0.0
  {
    PositiveSum(ws);
    var rest := RemoveAt(ws, i);
    assert forall j :: 0 <= j < |rest| ==> rest[j] > 0.0 by {
      forall j | 0 <= j < |rest|
        ensures rest[j] > 0.0
      {
        if j < i { assert rest[j] == ws[j]; } else { assert rest[j] == ws[j + 1]; }
      }
    }
    PositiveSum(rest);
    if rest != [] {
      var t := Sum(rest);
      var next := NextWeights(ws, i);
      assert next == Scaled(rest, t);
      forall j | 0 <= j < |next|
        ensures next[j] > 0.0
      {
        assert next[j] == rest[j] / t;
        DividePositive(rest[j], t);
      }
    }
  }

  lemma DividePositive(x: real, t: real)
    requires x > 0.0 && t > 0.0
    ensures x / t > 0.0
  {
  }

  /** A pick on a non-empty list with positive weights succeeds, and the run
      goes on from the lists it leaves. */
  lemma PickThenRest(items: seq<string>, ws: seq<real>, picks: seq<nat>)
    requires |items| == |ws| && items != [] && picks != []
    requires forall j :: 0 <= j < |ws| ==> ws[j] > 0.0
    ensures var i := Chosen(items, picks[0]);
            && (RemoveAt(ws, i) == [] || Sum(RemoveAt(ws, i)) != 0.0)
            && AfterPicks(items, ws, picks) == AfterPicks(RemoveAt(items, i), NextWeights(ws, i), picks[1..])
  {
    PositiveStep(ws, Chosen(items, picks[0]));
  }

  /** With every weight positive, n picks from an n-element list all
      succeed and empty it; one more pick then fails. */
  lemma {:induction false} PicksEmpty(items: seq<string>, ws: seq<real>, picks: seq<nat>)
    requires |picks| == |items| == |ws|
    requires forall j :: 0 <= j < |ws| ==> ws[j] > 0.0
    ensures AfterPicks(items, ws, picks) == Some([])
    ensures forall p: nat :: AfterPicks(items, ws, picks + [p]) == None
    decreases |picks|
  {
    if picks != [] {
      var i := Chosen(items, picks[0]);
      PositiveStep(ws, i);
      PicksEmpty(RemoveAt(items, i), NextWeights(ws, i), picks[1..]);
      PickThenRest(items, ws, picks);
      forall p: nat
        ensures AfterPicks(items, ws, picks + [p]) == None
      {
        assert (picks + [p])[0] == picks[0];
        assert (picks + [p])[1..] == picks[1..] + [p];
        PickThenRest(items, ws, picks + [p]);
      }
    } else {
      forall p: nat
        ensures AfterPicks(items, ws, picks + [p]) == None
      {
        assert items == [];
      }
    }
  }
}
