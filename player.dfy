/**
 * A player: life total, loss flag, and the library, hand and graveyard
 * zones that `Draw` and `Mill` move cards between.
 */
module Players {
  import opened Wrappers
  import opened Oids
  import opened Lists
  import opened Zones

  const StartingLife := 20

  /**
   * `n` single-card moves from the top of `src` to the top of `dst`,
   * stopping with `false` at the first move from an empty `src`.
   */
  function MoveTop(src: seq<Oid>, dst: seq<Oid>, n: int): (r: (bool, seq<Oid>, seq<Oid>))
    ensures var k := if n <= 0 then 0 else if n <= |src| then n else |src|;
            && (r.0 <==> n <= |src|)
            && r.1 == src[k..]
            && |r.2| == |dst| + k
            && r.2[..k] == Reverse(src[..k])
            && r.2[k..] == dst
    decreases n
  {
    if n <= 0 then (true, src, dst)
    else if src == [] then (false, src, dst)
    else MoveTop(src[1..], [src[0]] + dst, n - 1)
  }

  /** Every moved card stays in one of the two zones. */
  lemma MoveTopKeepsCards(src: seq<Oid>, dst: seq<Oid>, n: int)
    ensures var r := MoveTop(src, dst, n);
            multiset(r.1) + multiset(r.2) == multiset(src) + multiset(dst)
  {
    var r := MoveTop(src, dst, n);
    var k := if n <= 0 then 0 else if n <= |src| then n else |src|;
    assert r.2 == r.2[..k] + r.2[k..];
    SplitKeepsCards(src, dst, k, r.1, r.2);
  }

  /** The cards split off the top of `src` and reversed onto `dst` are those of `src` and `dst`. */
  lemma SplitKeepsCards(src: seq<Oid>, dst: seq<Oid>, k: nat, rest: seq<Oid>, moved: seq<Oid>)
    requires k <= |src| && rest == src[k..] && moved == Reverse(src[..k]) + dst
    ensures multiset(rest) + multiset(moved) == multiset(src) + multiset(dst)
  {
    ReverseMultiset(src[..k]);
    assert src == src[..k] + src[k..];
  }

  /** The last card moved ends on top of the destination. */
  lemma LastMovedOnTop(src: seq<Oid>, dst: seq<Oid>, n: int)
    requires 0 < n <= |src|
    ensures MoveTop(src, dst, n).2[0] == src[n - 1]
  {
    var r := MoveTop(src, dst, n);
    assert r.2[..n][0] == Reverse(src[..n])[0];
  }

  /**
   * `Mill` as written: the loop never decrements its counter, so any
   * positive count keeps popping until the library is empty and the next
   * `Pop` faults.
   */
  function MillAsWrittenSpec(src: seq<Oid>, dst: seq<Oid>, n: int): (r: (bool, seq<Oid>, seq<Oid>))
    ensures n <= 0 ==> r == (true, src, dst)
    ensures n > 0 ==> !r.0 && r.1 == [] && r.2 == Reverse(src) + dst
  {
    if n <= 0 then (true, src, dst) else MoveTop(src, dst, |src| + 1)
  }

  /** With two cards in the library, milling one as written moves both and faults. */
  lemma MillAsWrittenOvershoots(a: Oid, b: Oid)
    ensures MillAsWrittenSpec([a, b], [], 1) == (false, [], [b, a])
    ensures MoveTop([a, b], [], 1) == (true, [b], [a])
  {
    assert [a, b][1..] == [b] && [b][1..] == [];
    assert [[a, b][0]] + [] == [a] && [[b][0]] + [a] == [b, a];
    assert MoveTop([a, b], [], 3) == MoveTop([b], [a], 2) == MoveTop([], [b, a], 1);
  }

  class Player {
    var hasLost: bool
    var life: int
    const library: Zone
    const hand: Zone
    const graveyard: Zone

    /** The three zones are distinct objects. */
    predicate Valid()
      reads this
    {
      library != hand && hand != graveyard && library != graveyard
    }

    constructor ()
      ensures Valid() && life == StartingLife && !hasLost
      ensures library.objects == [] && hand.objects == [] && graveyard.objects == []
      ensures fresh(library) && fresh(hand) && fresh(graveyard)
    {
      hasLost := false;
      life := StartingLife;
      library := new Zone();
      hand := new Zone();
      graveyard := new Zone();
    }

    /** `Draw(count)`: `count` pops from the library, each pushed onto the hand. */
    method Draw(count: int) returns (r: Result<()>)
      requires Valid()
      modifies library, hand
      ensures var m := MoveTop(old(library.objects), old(hand.objects), count);
              (r.Ok? <==> m.0) && library.objects == m.1 && hand.objects == m.2
      ensures r.Err? ==> r.fault == NullReferenceException
    {
      var n := count;
      while n > 0
        invariant MoveTop(library.objects, hand.objects, n) == MoveTop(old(library.objects), old(hand.objects), count)
        decreases n
      {
        var top := library.Pop();
        if top.Err? {
          return Err(top.fault);
        }
        hand.Push(top.value);
        n := n - 1;
      }
      return Ok(());
    }

    /** `Mill` as written: the counter is never decremented. */
    method MillAsWritten(count: int) returns (r: Result<()>)
      requires Valid()
      modifies library, graveyard
      ensures var m := MillAsWrittenSpec(old(library.objects), old(graveyard.objects), count);
              (r.Ok? <==> m.0) && library.objects == m.1 && graveyard.objects == m.2
      ensures r.Err? ==> r.fault == NullReferenceException
    {
      ghost var moved := 0;
      while count > 0
        invariant count <= 0 ==> library.objects == old(library.objects) && graveyard.objects == old(graveyard.objects)
        invariant 0 <= moved <= |old(library.objects)|
        invariant library.objects == old(library.objects)[moved..]
        invariant MoveTop(library.objects, graveyard.objects, |library.objects| + 1)
                  == MoveTop(old(library.objects), old(graveyard.objects), |old(library.objects)| + 1)
        decreases |library.objects|
      {
        var top := library.Pop();
        if top.Err? {
          return Err(top.fault);
        }
        graveyard.Push(top.value);
        moved := moved + 1;
      }
      return Ok(());
    }

    /** `Mill` with the counter decremented: the same moves as `Draw`, into the graveyard. */
    method Mill(count: int) returns (r: Result<()>)
      requires Valid()
      modifies library, graveyard
      ensures var m := MoveTop(old(library.objects), old(graveyard.objects), count);
              (r.Ok? <==> m.0) && library.objects == m.1 && graveyard.objects == m.2
      ensures r.Err? ==> r.fault == NullReferenceException
    {
      var n := count;
      while n > 0
        invariant MoveTop(library.objects, graveyard.objects, n) == MoveTop(old(library.objects), old(graveyard.objects), count)
        decreases n
      {
        var top := library.Pop();
        if top.Err? {
          return Err(top.fault);
        }
        graveyard.Push(top.value);
        n := n - 1;
      }
      return Ok(());
    }
  }
}
