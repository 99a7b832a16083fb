/** The .NET list operations the engine relies on, over sequences. */
module Lists {
  /**
   * `List<T>.Remove` and `LinkedList<T>.Remove`: delete the first element
   * equal to `x`, if there is one.
   */
  function RemoveFirst<T(==)>(s: seq<T>, x: T): (r: seq<T>)
    ensures x in s ==> multiset(r) == multiset(s) - multiset{x} && |r| == |s| - 1
    ensures x !in s ==> r == s
    ensures forall y :: y in r ==> y in s
  {
    if s == [] then []
    else
      assert s == [s[0]] + s[1..];
      if s[0] == x then s[1..] else [s[0]] + RemoveFirst(s[1..], x)
  }

  /** Every element equal to `x` deleted. */
  function RemoveEvery<T(==)>(s: seq<T>, x: T): (r: seq<T>)
    ensures multiset(r) == multiset(s)[x := 0]
    ensures x !in r
  {
    if s == [] then []
    else
      assert s == [s[0]] + s[1..];
      (if s[0] == x then [] else [s[0]]) + RemoveEvery(s[1..], x)
  }

  /** A non-empty list is its front followed by its last element. */
  lemma FrontLast<T>(s: seq<T>)
    requires s != []
    ensures s[..|s| - 1] + [s[|s| - 1]] == s
  {
  }

  /** Appending is associative. */
  lemma AppendAssoc<T>(a: seq<T>, b: seq<T>, c: seq<T>)
    ensures a + b + c == a + (b + c)
  {
  }

  /** A prefix of a prefix is a prefix. */
  lemma PrefixOfPrefix<T>(s: seq<T>, k: nat, i: nat)
    requires i <= k <= |s|
    ensures s[..k][..i] == s[..i]
  {
  }

  /** Removing the first `x` from a sequence without duplicates removes every `x`. */
  lemma {:induction false} RemoveFirstDistinct<T>(s: seq<T>, x: T)
    requires forall i, j :: 0 <= i < j < |s| ==> s[i] != s[j]
    ensures x !in RemoveFirst(s, x)
    ensures forall i, j :: 0 <= i < j < |RemoveFirst(s, x)| ==> RemoveFirst(s, x)[i] != RemoveFirst(s, x)[j]
  {
    if s != [] && s[0] != x {
      RemoveFirstDistinct(s[1..], x);
      var r := RemoveFirst(s[1..], x);
      assert s[0] !in s[1..];
      assert s[0] !in r;
    }
  }

  /** Removing an element just appended, when it was not there before, gives the list back. */
  lemma {:induction false} RemoveFirstLast<T>(s: seq<T>, x: T)
    requires x !in s
    ensures RemoveFirst(s + [x], x) == s
  {
    if s != [] {
      assert (s + [x])[0] == s[0] && (s + [x])[1..] == s[1..] + [x];
      RemoveFirstLast(s[1..], x);
      assert [s[0]] + s[1..] == s;
    }
  }

  /** `n` copies of `x`. */
  function Repeat<T>(x: T, n: nat): (r: seq<T>)
    ensures |r| == n && forall i :: 0 <= i < n ==> r[i] == x
  {
    if n == 0 then [] else Repeat(x, n - 1) + [x]
  }

  lemma {:induction false} RepeatMultiset<T>(x: T, n: nat)
    ensures multiset(Repeat(x, n)) == multiset{}[x := n]
  {
    if n > 0 {
      RepeatMultiset(x, n - 1);
    }
  }

  /** `s` back to front. */
  function Reverse<T>(s: seq<T>): (r: seq<T>)
    ensures |r| == |s| && forall i :: 0 <= i < |s| ==> r[i] == s[|s| - 1 - i]
  {
    if s == [] then [] else Reverse(s[1..]) + [s[0]]
  }

  /** Reversing keeps every element. */
  lemma {:induction false} ReverseMultiset<T>(s: seq<T>)
    ensures multiset(Reverse(s)) == multiset(s)
  {
    if s != [] {
      ReverseMultiset(s[1..]);
      assert s == [s[0]] + s[1..];
    }
  }
}
