/** The two modifier stores a creature owns: Statuses (default 0, an integer
    write of 0 or less deletes the key, one-step decay) and Permanents
    (default None, no delete rule, no decay). Keys are free-form strings. */
module Modifiers {
  import opened Base

  type Store = map<string, Val>

  /** True of the values whose write into Statuses deletes the key. */
  predicate Deletes(v: Val) {
    v.Int? && v.n <= 0
  }

  /** Seeding done by every store's constructor, written straight into the
      data: "strength" and "dexterity" at 0 unless already present. */
  function Seeded(m: Store): (r: Store)
    ensures r.Keys == m.Keys + {"strength", "dexterity"}
    ensures forall k :: k in m ==> r[k] == m[k]
    ensures "strength" !in m ==> r["strength"] == Int(0)
    ensures "dexterity" !in m ==> r["dexterity"] == Int(0)
  {
    var a := if "strength" in m then m else m["strength" := Int(0)];
    if "dexterity" in a then a else a["dexterity" := Int(0)]
  }

  /** The Statuses write rule: the value is stored, then removed again when it
      is an integer of 0 or less. */
  function StatusWrite(m: Store, k: string, v: Val): (r: Store)
    ensures k in r <==> !Deletes(v)
    ensures k in r ==> r[k] == v
    ensures forall j :: j != k ==> (j in r <==> j in m)
    ensures forall j :: j != k && j in r ==> r[j] == m[j]
  {
    var stored := m[k := v];
    if Deletes(v) then stored - {k} else stored
  }

  /** What the per-key writes of an initial dict leave in an empty Statuses. */
  function Admitted(init: Store): (r: Store)
    ensures forall k :: k in r <==> k in init && !Deletes(init[k])
    ensures forall k :: k in r ==> r[k] == init[k]
  {
    map k | k in init && !Deletes(init[k]) :: init[k]
  }

  /** One decay step of a single entry: None is kept, an integer v becomes
      v - 1 when that is still positive and is removed otherwise. */
  function DecayEntry(v: Val): (r: Option<Val>)
    ensures v.Null? ==> r == Some(Null)
    ensures v.Int? ==> (r.Some? <==> v.n > 1) && (r.Some? ==> r.value == Int(v.n - 1))
  {
    match v
    case Null => Some(Null)
    case Int(n) => if n - 1 <= 0 then None else Some(Int(n - 1))
  }

  /** The whole-store decay pass of Statuses.turn_start. */
  function Decayed(m: Store): (r: Store)
    ensures forall k :: k in r <==> k in m && DecayEntry(m[k]).Some?
    ensures forall k :: k in r ==> r[k] == DecayEntry(m[k]).value
  {
    map k | k in m && DecayEntry(m[k]).Some? :: DecayEntry(m[k]).value
  }

  /** j decay passes in a row. */
  function DecayedTimes(m: Store, j: nat): (r: Store)
    ensures r.Keys <= m.Keys
  {
    if j == 0 then m else Decayed(DecayedTimes(m, j - 1))
  }

  /** An integer entry n is present with value n - j after j < n decay passes
      and gone after n passes (after one pass when n is 0 or less). */
  lemma {:induction false} IntEntryLifetime(m: Store, k: string, n: int, j: nat)
    requires k in m && m[k] == Int(n)
    ensures j < n ==> k in DecayedTimes(m, j) && DecayedTimes(m, j)[k] == Int(n - j)
    ensures j >= n && j >= 1 ==> k !in DecayedTimes(m, j)
  {
    if j > 0 {
      IntEntryLifetime(m, k, n, j - 1);
    }
  }

  /** A None entry survives any number of decay passes unchanged. */
  lemma {:induction false} NullEntryPersists(m: Store, k: string, j: nat)
    requires k in m && m[k] == Null
    ensures k in DecayedTimes(m, j) && DecayedTimes(m, j)[k] == Null
  {
    if j > 0 {
      NullEntryPersists(m, k, j - 1);
    }
  }

  /** A fresh Statuses holds strength and dexterity; each is 0 unless the
      initial dict supplied it with a value the write rule keeps. */
  lemma StatusesSeedValue(init: Store, k: string)
    requires k == "strength" || k == "dexterity"
    ensures k in Seeded(Admitted(init))
    ensures Seeded(Admitted(init))[k] ==
              if k in init && !Deletes(init[k]) then init[k] else Int(0)
  {
  }

  /** Apart from the two seeded keys, a fresh Statuses holds exactly the initial
      entries the write rule keeps: Statuses({'x': 0}) does not contain 'x'. */
  lemma StatusesInitialKeys(init: Store, k: string)
    requires k != "strength" && k != "dexterity"
    ensures k in Seeded(Admitted(init)) <==> k in init && !Deletes(init[k])
  {
  }

  /** Statuses: a store with default 0 and the delete-on-write rule. */
  class Statuses {
    var data: Store
    const defaultVal: Val

    /** Statuses(initial, default_val): a None default becomes 0; the initial
        dict goes through the per-key write; then the seeding. */
    constructor (initial: Store, defaultArg: Val)
      ensures defaultVal == (if defaultArg.Null? then Int(0) else defaultArg)
      ensures data == Seeded(Admitted(initial))
    {
      var d: Store := map[];
      var rest := initial.Keys;
      while rest != {}
        invariant rest <= initial.Keys
        invariant forall j :: j in d <==> j in initial && j !in rest && !Deletes(initial[j])
        invariant forall j :: j in d ==> d[j] == initial[j]
        decreases rest
      {
        var k :| k in rest;
        d := StatusWrite(d, k, initial[k]);
        rest := rest - {k};
      }
      assert d == Admitted(initial);
      defaultVal := if defaultArg.Null? then Int(0) else defaultArg;
      data := Seeded(d);
    }

    /** `key in store`: presence only, never materialises anything. */
    predicate Contains(k: string)
      reads this
    {
      k in data
    }

    /** Attribute access `store.key`: the stored value, or None where the
        source raises AttributeError; nothing is inserted. */
    function Attr(k: string): (r: Option<Val>)
      reads this
      ensures r.Some? <==> k in data
      ensures r.Some? ==> r.value == data[k]
    {
      if k in data then Some(data[k]) else None
    }

    /** `store[key]`: a missing key is first inserted at the default. */
    method Get(k: string) returns (v: Val)
      modifies this
      ensures k in old(data) ==> v == old(data)[k] && data == old(data)
      ensures k !in old(data) ==> v == defaultVal && data == old(data)[k := defaultVal]
    {
      if k !in data {
        data := data[k := defaultVal];
      }
      v := data[k];
    }

    /** `store[key] = value` */
    method Set(k: string, v: Val)
      modifies this
      ensures data == StatusWrite(old(data), k, v)
    {
      data := data[k := v];
      if v.Int? && data[k].n <= 0 {
        data := data - {k};
      }
    }

    /** `del store[key]`; the source raises KeyError on an absent key and
        every caller checks presence first. */
    method Delete(k: string)
      requires k in data
      modifies this
      ensures data == old(data) - {k}
    {
      data := data - {k};
    }

    /** turn_start: a pass over a snapshot of the entries. */
    method TurnStart()
      modifies this
      ensures data == Decayed(old(data))
    {
      var snapshot := data;
      var rest := snapshot.Keys;
      while rest != {}
        invariant rest <= snapshot.Keys
        invariant data.Keys <= snapshot.Keys
        invariant forall j :: j in rest ==> j in data && data[j] == snapshot[j]
        invariant forall j :: j in snapshot && j !in rest ==>
                    (j in data <==> DecayEntry(snapshot[j]).Some?)
        invariant forall j :: j in data && j !in rest ==> data[j] == DecayEntry(snapshot[j]).value
        decreases rest
      {
        var k :| k in rest;
        var v := snapshot[k];
        if v.Int? {
          var newVal := v.n - 1;
          if newVal <= 0 {
            data := data - {k};
          } else {
            data := data[k := Int(newVal)];
          }
        }
        rest := rest - {k};
      }
      assert data == Decayed(snapshot);
    }
  }

  /** Permanents: a store with default None that stores every write. */
  class Permanents {
    var data: Store
    const defaultVal: Val

    constructor (initial: Store)
      ensures defaultVal == Null
      ensures data == Seeded(initial)
    {
      defaultVal := Null;
      data := Seeded(initial);
    }

    predicate Contains(k: string)
      reads this
    {
      k in data
    }

    function Attr(k: string): (r: Option<Val>)
      reads this
      ensures r.Some? <==> k in data
      ensures r.Some? ==> r.value == data[k]
    {
      if k in data then Some(data[k]) else None
    }

    method Get(k: string) returns (v: Val)
      modifies this
      ensures k in old(data) ==> v == old(data)[k] && data == old(data)
      ensures k !in old(data) ==> v == defaultVal && data == old(data)[k := defaultVal]
    {
      if k !in data {
        data := data[k := defaultVal];
      }
      v := data[k];
    }

    method Set(k: string, v: Val)
      modifies this
      ensures data == old(data)[k := v]
    {
      data := data[k := v];
    }

  }
}
