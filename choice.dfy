/**
 * Choices put to a player. A choice holds its options and the number of
 * items that may be chosen; resolving it checks only that number. The
 * blocking delivery of an answer is replaced by a sequence of answers
 * given in advance, where running out counts as cancelling.
 */
module Choices {
  import opened Wrappers

  /** `Verify`: at least `min` and at most `max` items. */
  predicate Verify(min: int, max: int, count: nat)
  {
    min <= count <= max
  }

  /** `Choice<T>`: options, cardinality bounds, and the resolution state. */
  class Choice<T> {
    var options: seq<T>
    var min: int
    var max: int
    var resolved: bool
    var choices: Option<seq<T>>

    constructor (options: seq<T>)
      ensures this.options == options && min == 1 && max == 1
      ensures !resolved && choices == None
    {
      this.options := options;
      min := 1;
      max := 1;
      resolved := false;
      choices := None;
    }

    /**
     * `Resolve`: a list of acceptable size is taken and the choice is
     * resolved; otherwise the choice is unresolved and its earlier list kept.
     */
    method Resolve(chosen: seq<T>) returns (r: bool)
      modifies this
      ensures r <==> Verify(min, max, |chosen|)
      ensures r ==> resolved && choices == Some(chosen)
      ensures !r ==> !resolved && choices == old(choices)
      ensures options == old(options) && min == old(min) && max == old(max)
    {
      if min <= |chosen| <= max {
        resolved := true;
        choices := Some(chosen);
      } else {
        resolved := false;
      }
      return resolved;
    }
  }

  /** One answer from the player: a list of chosen items, or cancelling. */
  datatype Answer<T> = Cancel | Submit(items: seq<T>)

  /**
   * Delivering a choice: answers are taken in order until one has an
   * acceptable size or one cancels; with no answers left the choice is
   * cancelled. The rest of the answers is returned.
   */
  function Deliver<T>(min: int, max: int, answers: seq<Answer<T>>): (r: (Option<seq<T>>, seq<Answer<T>>))
    ensures r.0.Some? ==> Verify(min, max, |r.0.value|) && Submit(r.0.value) in answers
    ensures |r.1| <= |answers| && r.1 == answers[|answers| - |r.1|..]
    ensures answers != [] ==> |r.1| < |answers|
    ensures answers == [] ==> r == (None, [])
  {
    if answers == [] then (None, [])
    else match answers[0]
      case Cancel => (None, answers[1..])
      case Submit(items) =>
        if Verify(min, max, |items|) then (Some(items), answers[1..])
        else
          var rest := Deliver(min, max, answers[1..]);
          assert answers[1..][|answers[1..]| - |rest.1|..] == answers[|answers| - |rest.1|..];
          rest
  }

  /** A first answer of acceptable size is taken; a first cancel cancels. */
  lemma {:induction false} DeliverFirst<T>(min: int, max: int, items: seq<T>, rest: seq<Answer<T>>)
    ensures Verify(min, max, |items|) ==> Deliver(min, max, [Submit(items)] + rest) == (Some(items), rest)
    ensures Deliver(min, max, [Cancel] + rest) == (None, rest)
  {
    assert ([Submit(items)] + rest)[1..] == rest;
    assert ([Cancel] + rest)[1..] == rest;
  }

  /** Answers of the wrong size are skipped: delivery resumes after them. */
  lemma {:induction false} DeliverSkips<T>(min: int, max: int, bad: seq<seq<T>>, rest: seq<Answer<T>>)
    requires forall b :: b in bad ==> !Verify(min, max, |b|)
    ensures Deliver(min, max, Submits(bad) + rest) == Deliver(min, max, rest)
    decreases |bad|
  {
    if bad != [] {
      var tail := Submits(bad[1..]) + rest;
      assert Submits(bad) + rest == [Submit(bad[0])] + tail;
      assert ([Submit(bad[0])] + tail)[1..] == tail;
      assert forall b :: b in bad[1..] ==> b in bad;
      DeliverSkips(min, max, bad[1..], rest);
      assert !Verify(min, max, |bad[0]|);
      assert Deliver(min, max, [Submit(bad[0])] + tail) == Deliver(min, max, tail);
    } else {
      assert Submits(bad) + rest == rest;
    }
  }

  /** Submitting each list of `lists` in turn. */
  function Submits<T>(lists: seq<seq<T>>): (r: seq<Answer<T>>)
    ensures |r| == |lists|
    ensures forall i :: 0 <= i < |r| ==> r[i] == Submit(lists[i])
  {
    if lists == [] then [] else [Submit(lists[0])] + Submits(lists[1..])
  }
}
