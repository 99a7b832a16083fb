/**
 * Counter stores: how many counters of each kind an object carries, kept
 * in a dictionary that holds a key only while the kind is present.
 */
module Counters {

  datatype Counter = PlusOnePlusOne | MinusOneMinusOne | Loyalty

  /** `Count(counter)`: the stored number, 0 for an absent kind. */
  function CountOf(m: map<Counter, int>, c: Counter): (n: int)
    ensures c !in m ==> n == 0
    ensures c in m ==> n == m[c]
  {
    if c in m then m[c] else 0
  }

  /** `Add(counter, amount)`: creates the kind with `amount`, or adds to what is stored. */
  function AddSpec(m: map<Counter, int>, c: Counter, amount: int): (r: map<Counter, int>)
    ensures c in r && CountOf(r, c) == CountOf(m, c) + amount
    ensures r - {c} == m - {c}
  {
    if c in m then m[c := m[c] + amount] else m[c := amount]
  }

  /**
   * `Remove(counter, amount)`: subtracts when more than `amount` is stored,
   * deletes the kind when exactly `amount` is, and otherwise fails with
   * the store untouched.
   */
  function RemoveSpec(m: map<Counter, int>, c: Counter, amount: int): (r: (bool, map<Counter, int>))
    ensures r.0 <==> c in m && m[c] >= amount
    ensures !r.0 ==> r.1 == m
    ensures r.0 && m[c] > amount ==> c in r.1 && r.1[c] == m[c] - amount
    ensures r.0 && m[c] == amount ==> c !in r.1
    ensures r.1 - {c} == m - {c}
  {
    if c in m && m[c] > amount then (true, m[c := m[c] - amount])
    else if c in m && m[c] == amount then (true, m - {c})
    else (false, m)
  }

  /** `RemoveAll(counter)`: deletes the kind, reporting whether it was there. */
  function RemoveAllSpec(m: map<Counter, int>, c: Counter): (r: (bool, map<Counter, int>))
    ensures r.0 <==> c in m
    ensures c !in r.1 && r.1 - {c} == m - {c}
  {
    if c in m then (true, m - {c}) else (false, m)
  }

  /** Every stored kind has a positive count. */
  predicate Positive(m: map<Counter, int>)
  {
    forall c :: c in m ==> m[c] > 0
  }

  /** Adding and removing positive amounts keeps every stored count positive. */
  lemma PositiveKept(m: map<Counter, int>, c: Counter, amount: int)
    requires Positive(m) && amount > 0
    ensures Positive(AddSpec(m, c, amount))
    ensures Positive(RemoveSpec(m, c, amount).1)
    ensures Positive(RemoveAllSpec(m, c).1)
  {
    var added := AddSpec(m, c, amount);
    forall k | k in added
      ensures added[k] > 0
    {
      if k != c {
        assert k in added - {c};
      }
    }
    var removed := RemoveSpec(m, c, amount).1;
    forall k | k in removed
      ensures removed[k] > 0
    {
      if k != c {
        assert k in removed - {c};
      }
    }
    var cleared := RemoveAllSpec(m, c).1;
    forall k | k in cleared
      ensures cleared[k] > 0
    {
      assert k in cleared - {c};
    }
  }

  /**
   * Adding a positive amount and removing the same amount restores the
   * store exactly, the absence of the kind included.
   */
  lemma AddRemoveRoundTrip(m: map<Counter, int>, c: Counter, amount: int)
    requires Positive(m) && amount > 0
    ensures RemoveSpec(AddSpec(m, c, amount), c, amount) == (true, m)
  {
    var added := AddSpec(m, c, amount);
    var r := RemoveSpec(added, c, amount);
    assert r.0;
    if c in m {
      assert r.1 == m;
    } else {
      assert c !in r.1;
      assert r.1 - {c} == m - {c};
      assert r.1 == r.1 - {c} && m == m - {c};
    }
  }

  /** A dictionary of counters mutated in place. */
  class CounterStore {
    var counters: map<Counter, int>

    constructor ()
      ensures counters == map[]
    {
      counters := map[];
    }

    function Has(c: Counter): (r: bool)
      reads this
      ensures r <==> c in counters
    {
      c in counters
    }

    function Count(c: Counter): (n: int)
      reads this
      ensures n == CountOf(counters, c)
    {
      if c in counters then counters[c] else 0
    }

    method Add(c: Counter, amount: int)
      modifies this
      ensures counters == AddSpec(old(counters), c, amount)
    {
      if c in counters {
        counters := counters[c := counters[c] + amount];
      } else {
        counters := counters[c := amount];
      }
    }

    method Remove(c: Counter, amount: int) returns (removed: bool)
      modifies this
      ensures (removed, counters) == RemoveSpec(old(counters), c, amount)
    {
      if c in counters {
        if counters[c] > amount {
          counters := counters[c := counters[c] - amount];
          return true;
        } else if counters[c] == amount {
          counters := counters - {c};
          return true;
        }
      }
      return false;
    }

    method RemoveAll(c: Counter) returns (removed: bool)
      modifies this
      ensures (removed, counters) == RemoveAllSpec(old(counters), c)
    {
      if c in counters {
        counters := counters - {c};
        return true;
      }
      return false;
    }

    method Clear()
      modifies this
      ensures counters == map[]
    {
      counters := map[];
    }
  }
}
