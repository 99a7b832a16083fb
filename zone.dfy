/**
 * Zones: ordered lists of object identifiers, front first. A zone is a
 * linked list mutated in place; the pure functions here state what each
 * operation does to the list, and the `Zone` class performs it.
 */
module Zones {
  import opened Wrappers
  import opened Oids
  import opened Lists

  /**
   * The zones of a game: each player's library, hand and graveyard, and the
   * shared battlefield, stack and exile.
   */
  datatype ZoneId =
    | LibraryZone(player: nat)
    | HandZone(player: nat)
    | GraveyardZone(player: nat)
    | BattlefieldZone
    | StackZone
    | ExileZone

  /** No identifier occurs twice. */
  ghost predicate NoDup(z: seq<Oid>)
  {
    forall x :: multiset(z)[x] <= 1
  }

  /**
   * `GetNode(index)`: the position of the node it returns, `None` for the
   * null node it returns on an empty list (index 0, or index -1 which equals
   * `Count - 1`), or the index fault.
   */
  function NodeAt(z: seq<Oid>, index: int): (r: Result<Option<nat>>)
    ensures r.Ok? && r.value.Some? ==> 0 <= index < |z| && r.value.value == index
    ensures r.Ok? && r.value.None? ==> z == [] && index in {0, -1}
    ensures r.Err? <==> (index < 0 || index >= |z|) && !(z == [] && index in {0, -1})
    ensures r.Err? ==> r.fault == IndexOutOfRangeException
  {
    var count := |z|;
    if index == 0 then Ok(if count == 0 then None else Some(0))
    else if index == count - 1 then Ok(if count == 0 then None else Some(count - 1))
    else if index < 0 || index >= count then Err(IndexOutOfRangeException)
    else Ok(Some(index))
  }

  /**
   * `Add(oid, index)`: refuses an identifier already present; index 0 puts
   * it at the front, an index at or past the end appends it, and any other
   * index inserts it before the node `GetNode` finds.
   */
  function ZoneAdd(z: seq<Oid>, oid: Oid, index: int): (r: Result<seq<Oid>>)
    ensures oid in z ==> r == Err(ArgumentException)
    ensures r.Err? ==> oid in z || index < 0
    ensures r.Ok? ==> |r.value| == |z| + 1 && RemoveFirst(r.value, oid) == z
    ensures r.Ok? ==> multiset(r.value) == multiset(z) + multiset{oid}
    ensures r.Ok? && index == 0 ==> r.value[0] == oid
    ensures r.Ok? && index >= |z| ==> r.value[|z|] == oid
    ensures r.Ok? && 0 <= index < |z| ==> r.value[index] == oid
  {
    if oid in z then Err(ArgumentException)
    else if index == 0 then
      InsertFacts(z, 0, oid);
      assert [oid] + z == z[..0] + [oid] + z[0..];
      Ok([oid] + z)
    else if index >= |z| then
      InsertFacts(z, |z|, oid);
      assert z + [oid] == z[..|z|] + [oid] + z[|z|..];
      Ok(z + [oid])
    else
      match NodeAt(z, index)
      case Err(f) => Err(f)
      case Ok(None) => Err(ArgumentNullException)
      case Ok(Some(pos)) =>
        InsertFacts(z, pos, oid);
        Ok(z[..pos] + [oid] + z[pos..])
  }

  /** Inserting an absent identifier at `pos`: one more element, and removing it again gives `z`. */
  lemma InsertFacts(z: seq<Oid>, pos: int, oid: Oid)
    requires 0 <= pos <= |z| && oid !in z
    ensures var r := z[..pos] + [oid] + z[pos..];
            && |r| == |z| + 1 && r[pos] == oid
            && RemoveFirst(r, oid) == z
            && multiset(r) == multiset(z) + multiset{oid}
  {
    var r := z[..pos] + [oid] + z[pos..];
    assert r == z[..pos] + ([oid] + z[pos..]);
    assert oid !in z[..pos];
    RemoveFirstAfter(z[..pos], [oid] + z[pos..], oid);
    assert z[..pos] + z[pos..] == z;
    assert multiset(z) == multiset(z[..pos]) + multiset(z[pos..]);
  }

  /** Removing the first `x` from `a + b` when `a` has no `x` only touches `b`. */
  lemma {:induction false} RemoveFirstAfter(a: seq<Oid>, b: seq<Oid>, x: Oid)
    requires x !in a
    ensures RemoveFirst(a + b, x) == a + RemoveFirst(b, x)
  {
    if a != [] {
      assert (a + b)[0] == a[0] && (a + b)[1..] == a[1..] + b;
      RemoveFirstAfter(a[1..], b, x);
      assert RemoveFirst(a + b, x) == [a[0]] + RemoveFirst(a[1..] + b, x);
      var rest := RemoveFirst(b, x);
      assert [a[0]] + (a[1..] + rest) == ([a[0]] + a[1..]) + rest;
      assert a == [a[0]] + a[1..];
    } else {
      assert a + b == b && a + RemoveFirst(b, x) == RemoveFirst(b, x);
    }
  }

  /** `Pop()`: the front identifier and the rest; an empty zone dereferences a null node. */
  function ZonePop(z: seq<Oid>): (r: Result<(Oid, seq<Oid>)>)
    ensures r.Err? <==> z == []
    ensures r.Err? ==> r.fault == NullReferenceException
    ensures r.Ok? ==> [r.value.0] + r.value.1 == z
  {
    if z == [] then Err(NullReferenceException) else Ok((z[0], z[1..]))
  }

  /** `Push(oid)`: to the front, with no duplicate check. */
  function ZonePush(z: seq<Oid>, oid: Oid): (r: seq<Oid>)
    ensures |r| == |z| + 1 && r[0] == oid && r[1..] == z
  {
    [oid] + z
  }

  /** `Get(index)` as written: the null node of an empty zone is dereferenced. */
  function ZoneGetAsWritten(z: seq<Oid>, index: int): (r: Result<Oid>)
    ensures r.Ok? <==> 0 <= index < |z|
    ensures r.Ok? ==> r.value == z[index]
    ensures r.Err? && z == [] && index in {0, -1} ==> r.fault == NullReferenceException
    ensures r.Err? && z != [] ==> r.fault == IndexOutOfRangeException
  {
    match NodeAt(z, index)
    case Err(f) => Err(f)
    case Ok(None) => Err(NullReferenceException)
    case Ok(Some(pos)) => Ok(z[pos])
  }

  /** `Get(index)` as the zone test expects it: an empty zone yields no identifier. */
  function ZoneGet(z: seq<Oid>, index: int): (r: Result<Option<Oid>>)
    ensures r == Ok(None) <==> z == [] && index in {0, -1}
    ensures r.Ok? && r.value.Some? <==> 0 <= index < |z|
    ensures r.Ok? && r.value.Some? ==> r.value.value == z[index]
    ensures r.Err? ==> r.fault == IndexOutOfRangeException
  {
    match NodeAt(z, index)
    case Err(f) => Err(f)
    case Ok(None) => Ok(None)
    case Ok(Some(pos)) => Ok(Some(z[pos]))
  }

  /** `Remove(oid)`: drops the first occurrence, or throws when there is none. */
  function ZoneRemove(z: seq<Oid>, oid: Oid): (r: Result<seq<Oid>>)
    ensures r.Err? <==> oid !in z
    ensures r.Err? ==> r.fault == ArgumentException
    ensures r.Ok? ==> multiset(r.value) == multiset(z) - multiset{oid} && |r.value| == |z| - 1
  {
    if oid in z then Ok(RemoveFirst(z, oid)) else Err(ArgumentException)
  }

  /** `Hand.DiscardsNeeded`: cards over the maximum size; none when the maximum is negative. */
  function DiscardsNeeded(count: nat, maxSize: int): (r: nat)
    ensures maxSize < 0 || count <= maxSize ==> r == 0
    ensures 0 <= maxSize < count ==> r + maxSize == count
  {
    if maxSize < 0 || count <= maxSize then 0 else count - maxSize
  }

  /** The hand's default maximum size. */
  const HandMaxSize := 7

  /** A zone: one linked list of identifiers, mutated in place. */
  class Zone {
    var objects: seq<Oid>

    constructor ()
      ensures objects == []
    {
      objects := [];
    }

    function Count(): (n: nat)
      reads this
      ensures n == |objects|
    {
      |objects|
    }

    function Has(oid: Oid): (r: bool)
      reads this
      ensures r <==> oid in objects
    {
      oid in objects
    }

    /** `GetNode`: walks `index` nodes from the first one. */
    method GetNode(index: int) returns (r: Result<Option<nat>>)
      ensures r == NodeAt(objects, index)
    {
      var count := |objects|;
      if index == 0 {
        return Ok(if count == 0 then None else Some(0));
      } else if index == count - 1 {
        return Ok(if count == 0 then None else Some(count - 1));
      } else if index < 0 || index >= count {
        return Err(IndexOutOfRangeException);
      }
      var node := 0;
      var left := index;
      while left > 0
        invariant 0 <= left <= index && node + left == index
      {
        node := node + 1;
        left := left - 1;
      }
      return Ok(Some(node));
    }

    method Add(oid: Oid, index: int) returns (r: Result<()>)
      modifies this
      ensures r.Ok? <==> ZoneAdd(old(objects), oid, index).Ok?
      ensures r.Ok? ==> objects == ZoneAdd(old(objects), oid, index).value
      ensures r.Err? ==> r.fault == ZoneAdd(old(objects), oid, index).fault && objects == old(objects)
    {
      if oid in objects {
        return Err(ArgumentException);
      }
      if index == 0 {
        objects := [oid] + objects;
      } else if index >= |objects| {
        objects := objects + [oid];
      } else {
        var node := GetNode(index);
        match node {
          case Err(f) => return Err(f);
          case Ok(None) => return Err(ArgumentNullException);
          case Ok(Some(pos)) => objects := objects[..pos] + [oid] + objects[pos..];
        }
      }
      return Ok(());
    }

    method Pop() returns (r: Result<Oid>)
      modifies this
      ensures r.Err? <==> old(objects) == []
      ensures r.Err? ==> r.fault == NullReferenceException && objects == old(objects)
      ensures r.Ok? ==> (r.value, objects) == ZonePop(old(objects)).value
    {
      if objects == [] {
        return Err(NullReferenceException);
      }
      var oid := objects[0];
      objects := objects[1..];
      return Ok(oid);
    }

    method Push(oid: Oid)
      modifies this
      ensures objects == ZonePush(old(objects), oid)
    {
      objects := [oid] + objects;
    }

    /** `Get(index)`, with the empty zone answering no identifier. */
    method Get(index: int) returns (r: Result<Option<Oid>>)
      ensures r == ZoneGet(objects, index)
    {
      var node := GetNode(index);
      match node {
        case Err(f) => return Err(f);
        case Ok(None) => return Ok(None);
        case Ok(Some(pos)) => return Ok(Some(objects[pos]));
      }
    }

    method Remove(oid: Oid) returns (r: Result<()>)
      modifies this
      ensures r.Err? <==> oid !in old(objects)
      ensures r.Err? ==> r.fault == ArgumentException && objects == old(objects)
      ensures r.Ok? ==> objects == ZoneRemove(old(objects), oid).value
    {
      if oid !in objects {
        return Err(ArgumentException);
      }
      objects := RemoveFirst(objects, oid);
      return Ok(());
    }
  }

  /** `Add` keeps a zone free of duplicates; `Push` does not check. */
  lemma AddKeepsNoDup(z: seq<Oid>, oid: Oid, index: int)
    requires NoDup(z) && ZoneAdd(z, oid, index).Ok?
    ensures NoDup(ZoneAdd(z, oid, index).value)
  {
    assert multiset(z)[oid] == 0;
  }

  /** `Remove` keeps a zone free of duplicates, and the identifier is then gone. */
  lemma RemoveKeepsNoDup(z: seq<Oid>, oid: Oid)
    requires NoDup(z) && ZoneRemove(z, oid).Ok?
    ensures NoDup(ZoneRemove(z, oid).value) && oid !in ZoneRemove(z, oid).value
  {
    assert oid !in multiset(ZoneRemove(z, oid).value);
  }

  /** `Push(x)` then `Pop()` returns `x` and restores the zone. */
  lemma PushPopRoundTrip(z: seq<Oid>, x: Oid)
    ensures ZonePop(ZonePush(z, x)) == Ok((x, z))
  {
  }

  /** After `Add(x, i)` with `0 <= i <= Count`, `Get(i)` finds `x`. */
  lemma AddThenGet(z: seq<Oid>, x: Oid, i: int)
    requires x !in z && 0 <= i <= |z|
    ensures ZoneAdd(z, x, i).Ok?
    ensures ZoneGet(ZoneAdd(z, x, i).value, i) == Ok(Some(x))
  {
  }

  /**
   * The zone scenario: three identifiers added at the front come out in
   * reverse; the ends are found and out-of-range indexes fault; popping
   * removes the front; a duplicate add and a missing remove throw; a push
   * restores the popped identifier.
   */
  lemma ZoneScenario(a: Oid, b: Oid, c: Oid)
    requires a != b && b != c && a != c
    ensures ZoneGet([], 0) == Ok(None)
    ensures ZoneAdd([], a, 0) == Ok([a])
    ensures ZoneAdd([a], b, 0) == Ok([b, a])
    ensures ZoneAdd([b, a], c, 0) == Ok([c, b, a])
    ensures ZoneGet([c, b, a], 0) == Ok(Some(c)) && ZoneGet([c, b, a], 2) == Ok(Some(a))
    ensures ZoneGet([c, b, a], -1) == Err(IndexOutOfRangeException)
    ensures ZoneGet([c, b, a], 3) == Err(IndexOutOfRangeException)
    ensures ZonePop([c, b, a]) == Ok((c, [b, a]))
    ensures ZoneAdd([b, a], b, 0) == Err(ArgumentException)
    ensures ZoneRemove([b, a], c) == Err(ArgumentException)
    ensures ZonePush([b, a], c) == [c, b, a]
  {
    assert [a] + [] == [a] && [b] + [a] == [b, a] && [c] + [b, a] == [c, b, a];
    assert [c, b, a][1..] == [b, a];
  }

  /** The hand-size scenario: limits of 7, 5, 50 and -1 over 0, 7, 8 and 15 cards. */
  lemma HandScenario()
    ensures DiscardsNeeded(0, HandMaxSize) == 0 && DiscardsNeeded(7, HandMaxSize) == 0
    ensures DiscardsNeeded(8, HandMaxSize) == 1 && DiscardsNeeded(15, HandMaxSize) == 8
    ensures DiscardsNeeded(15, 5) == 10 && DiscardsNeeded(15, 50) == 0
    ensures DiscardsNeeded(15, -1) == 0
  {
  }

  /** As written, `Get(0)` on an empty zone faults where the zone test expects no identifier. */
  lemma EmptyGetFaults()
    ensures ZoneGetAsWritten([], 0) == Err(NullReferenceException)
    ensures ZoneGet([], 0) == Ok(None)
  {
  }
}
