/**
 * Targets: a condition on players and objects, how many must be chosen,
 * and, once declared, the chosen players and objects.
 */
module Targets {
  import opened Wrappers
  import opened Oids
  import opened Choices

  /** `PlayerOrOID`: a tagged value holding exactly one of the two. */
  datatype PlayerOrOid = PlayerValue(player: int) | OidValue(oid: Oid)
  {
    predicate IsPlayer() { PlayerValue? }
    predicate IsOid() { OidValue? }
  }

  /** The `Player` accessor: refused on an object value. */
  function GetPlayer(x: PlayerOrOid): (r: Result<int>)
    ensures r.Ok? <==> x.IsPlayer()
    ensures r.Ok? ==> x == PlayerValue(r.value)
    ensures r.Err? ==> r.fault == InvalidOperationException
  {
    if x.PlayerValue? then Ok(x.player) else Err(InvalidOperationException)
  }

  /** The `OID` accessor: refused on a player value. */
  function GetOid(x: PlayerOrOid): (r: Result<Oid>)
    ensures r.Ok? <==> x.IsOid()
    ensures r.Ok? ==> x == OidValue(r.value)
    ensures r.Err? ==> r.fault == InvalidOperationException
  {
    if x.OidValue? then Ok(x.oid) else Err(InvalidOperationException)
  }

  /** Every value is a player or an object, never both. */
  lemma ExactlyOneVariant(x: PlayerOrOid)
    ensures x.IsPlayer() != x.IsOid()
    ensures GetPlayer(x).Ok? != GetOid(x).Ok?
  {
  }

  /** The fixed part of a target: its condition and cardinality. */
  datatype TargetSpec = TargetSpec(condition: PlayerOrOid -> bool, min: int, max: int)

  /** `new Target(condition)`: exactly one target. */
  function NewTargetSpec(condition: PlayerOrOid -> bool): (t: TargetSpec)
    ensures t.min == 1 && t.max == 1 && t.condition == condition
  {
    TargetSpec(condition, 1, 1)
  }

  /** `new Target(condition, min, max)`. */
  function NewTargetSpecBounded(condition: PlayerOrOid -> bool, min: int, max: int): (t: TargetSpec)
    ensures t.min == min && t.max == max && t.condition == condition
  {
    TargetSpec(condition, min, max)
  }

  /** The changing part of a target: whether it is declared, and the chosen list. */
  datatype TargetState = TargetState(declared: bool, setTargets: Option<seq<PlayerOrOid>>)

  /** A new or reset target: not declared, with no list. */
  const Undeclared := TargetState(false, None)

  /** The object candidates of `GetAllTargets`: every key but the source that meets the condition. */
  function ObjectOptions(keys: seq<Oid>, source: Oid, condition: PlayerOrOid -> bool): (r: seq<PlayerOrOid>)
    ensures forall x :: x in r <==> x.OidValue? && x.oid in keys && x.oid != source && condition(x)
  {
    if keys == [] then []
    else
      var init := ObjectOptions(keys[..|keys| - 1], source, condition);
      var k := keys[|keys| - 1];
      assert keys == keys[..|keys| - 1] + [k];
      if k != source && condition(OidValue(k)) then init + [OidValue(k)] else init
  }

  /** The player candidates of `GetAllTargets`: players `0 .. n-1` that meet the condition, in order. */
  function PlayerOptions(n: nat, condition: PlayerOrOid -> bool): (r: seq<PlayerOrOid>)
    ensures forall x :: x in r <==> x.PlayerValue? && 0 <= x.player < n && condition(x)
  {
    if n == 0 then []
    else
      var init := PlayerOptions(n - 1, condition);
      if condition(PlayerValue(n - 1)) then init + [PlayerValue(n - 1)] else init
  }

  /** `GetAllTargets`: object candidates in dictionary order, then player candidates. */
  function AllTargets(keys: seq<Oid>, source: Oid, playerCount: nat, condition: PlayerOrOid -> bool): seq<PlayerOrOid>
  {
    ObjectOptions(keys, source, condition) + PlayerOptions(playerCount, condition)
  }

  /**
   * `Declare`: a cancelled choice leaves the target as it was; otherwise
   * the chosen list is stored and the target is declared.
   */
  function DeclareSpec(spec: TargetSpec, state: TargetState, answers: seq<Answer<PlayerOrOid>>)
    : (r: (bool, TargetState, seq<Answer<PlayerOrOid>>))
    ensures r.0 <==> Deliver(spec.min, spec.max, answers).0.Some?
    ensures !r.0 ==> r.1 == state
    ensures r.0 ==> && r.1 == TargetState(true, Deliver(spec.min, spec.max, answers).0)
                    && Verify(spec.min, spec.max, |r.1.setTargets.value|)
    ensures r.2 == Deliver(spec.min, spec.max, answers).1
  {
    var (chosen, rest) := Deliver(spec.min, spec.max, answers);
    if chosen.None? then (false, state, rest)
    else (true, TargetState(true, Some(chosen.value)), rest)
  }

  /**
   * The first valid-sized submission declares the target with exactly
   * that list; a cancel leaves the target as it was.
   */
  lemma {:induction false} DeclareAnswers(spec: TargetSpec, state: TargetState, items: seq<PlayerOrOid>,
                                          rest: seq<Answer<PlayerOrOid>>)
    ensures Verify(spec.min, spec.max, |items|) ==>
            DeclareSpec(spec, state, [Submit(items)] + rest) == (true, TargetState(true, Some(items)), rest)
    ensures DeclareSpec(spec, state, [Cancel] + rest) == (false, state, rest)
  {
    DeliverFirst(spec.min, spec.max, items, rest);
  }

  /** `Target`: a condition and bounds fixed at construction, and the declaration state. */
  class Target {
    const condition: PlayerOrOid -> bool
    const min: int
    const max: int
    var declared: bool
    var setTargets: Option<seq<PlayerOrOid>>

    constructor (condition: PlayerOrOid -> bool)
      ensures this.condition == condition && min == 1 && max == 1
      ensures !declared && setTargets == None
    {
      this.condition := condition;
      min := 1;
      max := 1;
      declared := false;
      setTargets := None;
    }

    constructor Bounded(condition: PlayerOrOid -> bool, min: int, max: int)
      ensures this.condition == condition && this.min == min && this.max == max
      ensures !declared && setTargets == None
    {
      this.condition := condition;
      this.min := min;
      this.max := max;
      declared := false;
      setTargets := None;
    }

    function Spec(): TargetSpec
      reads this
    {
      TargetSpec(condition, min, max)
    }

    /** `GetAllTargets`: the two accumulation loops over object keys and players. */
    method GetAllTargets(keys: seq<Oid>, source: Oid, playerCount: nat) returns (targets: seq<PlayerOrOid>)
      ensures targets == AllTargets(keys, source, playerCount, condition)
    {
      targets := [];
      var i := 0;
      while i < |keys|
        invariant 0 <= i <= |keys|
        invariant targets == ObjectOptions(keys[..i], source, condition)
      {
        assert keys[..i + 1][..i] == keys[..i];
        var x := OidValue(keys[i]);
        if keys[i] != source && condition(x) {
          targets := targets + [x];
        }
        i := i + 1;
      }
      assert keys[..i] == keys;
      var objects := targets;
      var player := 0;
      while player < playerCount
        invariant 0 <= player <= playerCount
        invariant targets == objects + PlayerOptions(player, condition)
      {
        var x := PlayerValue(player);
        if condition(x) {
          targets := targets + [x];
        }
        player := player + 1;
      }
    }

    /**
     * `Declare`: offers every candidate, and stores the chosen list unless
     * cancelled. The candidates only feed the console prompt, which is not
     * modelled; `Choice.Verify` checks the number chosen, not where they
     * come from, so the answers decide.
     */
    method Declare(keys: seq<Oid>, source: Oid, playerCount: nat, answers: seq<Answer<PlayerOrOid>>)
      returns (ok: bool, rest: seq<Answer<PlayerOrOid>>)
      modifies this
      ensures (ok, TargetState(declared, setTargets), rest)
              == DeclareSpec(Spec(), TargetState(old(declared), old(setTargets)), answers)
    {
      var options := GetAllTargets(keys, source, playerCount);
      var chosen;
      chosen, rest := Deliver(min, max, answers).0, Deliver(min, max, answers).1;
      if chosen.None? {
        return false, rest;
      }
      setTargets := Some(chosen.value);
      declared := true;
      return true, rest;
    }

    /** `Reset`: back to the state of a new target. */
    method Reset()
      modifies this
      ensures declared == false && setTargets == None
    {
      declared := false;
      setTargets := None;
    }
  }
}
