/**
 * Abilities: how activated and mana abilities are built, the activation
 * conditions, whether the costs of an ability can be paid, the events a
 * resolution produces, and the modification list of a static ability.
 */
module Abilities {
  import opened Wrappers
  import opened Oids
  import opened Zones
  import opened Objects
  import opened Targets
  import opened Modifications
  import opened EventTypes
  import opened GameState

  // ----------------------------------------------------------------------
  // Building abilities
  // ----------------------------------------------------------------------

  /** `ResolutionAbility(effects, targets)`: a missing (null) target array means no targets. */
  function NewResolution(effects: seq<Effect>, targets: Option<seq<TargetId>>): (r: Resolution)
    ensures r.effects == effects
    ensures targets.None? ==> r.targets == []
    ensures targets.Some? ==> r.targets == targets.value
  {
    Resolution(effects, if targets.Some? then targets.value else [])
  }

  /** `SetConditionIfNull`: a supplied condition is kept, a missing one becomes the default. */
  function ConditionOrDefault(condition: Option<Condition>): (c: Condition)
    ensures condition.Some? ==> c == condition.value
    ensures condition.None? ==> c == DefaultCondition
  {
    if condition.Some? then condition.value else DefaultCondition
  }

  /** `ActivatedAbility(costs, condition, effects, targets)`. */
  function NewActivatedAbility(costs: seq<CostEvent>, condition: Option<Condition>, effects: seq<Effect>,
                               targets: Option<seq<TargetId>>): (a: Ability)
    ensures !a.isMana && a.costs == costs && a.resolution.effects == effects
    ensures a.condition == ConditionOrDefault(condition)
    ensures a.resolution.targets == (if targets.Some? then targets.value else [])
  {
    Ability(costs, ConditionOrDefault(condition), NewResolution(effects, targets), false)
  }

  /** `ManaAbility(costs, condition, effects)`: built with no targets. */
  function NewManaAbility(costs: seq<CostEvent>, condition: Option<Condition>, effects: seq<Effect>): (a: Ability)
    ensures a.isMana && a.costs == costs && a.resolution.effects == effects
    ensures a.condition == ConditionOrDefault(condition)
    ensures a.resolution.targets == []
  {
    Ability(costs, ConditionOrDefault(condition), NewResolution(effects, None), true)
  }

  // ----------------------------------------------------------------------
  // Activation
  // ----------------------------------------------------------------------

  /**
   * Whether a condition holds for `source`, when `priority` is the player
   * with priority and `canCastSorceries` is the game's sorcery timing. The
   * controller check looks the object up and faults when it is missing; a
   * conjunction does not evaluate its right side when the left is false.
   */
  function ConditionHolds(s: State, c: Condition, source: Oid, priority: int, canCastSorceries: bool): (r: Result<bool>)
    ensures c.OnBattlefield? ==> r == Ok(FindZone(s, source) == Some(BattlefieldZone))
    ensures c.SorceryTiming? ==> r == Ok(canCastSorceries)
    ensures c.ControlledByPriorityPlayer? ==>
              (r.Err? <==> source !in s.objects) &&
              (r.Ok? ==> r.value == (s.objects[source].attr.controller == priority))
  {
    match c
    case OnBattlefield => Ok(FindZone(s, source) == Some(BattlefieldZone))
    case ControlledByPriorityPlayer =>
      if source !in s.objects then Err(KeyNotFoundException)
      else Ok(s.objects[source].attr.controller == priority)
    case SorceryTiming => Ok(canCastSorceries)
    case Both(l, rt) =>
      match ConditionHolds(s, l, source, priority, canCastSorceries)
      case Err(f) => Err(f)
      case Ok(b) => if !b then Ok(false) else ConditionHolds(s, rt, source, priority, canCastSorceries)
  }

  /**
   * The default condition holds exactly for a source on the battlefield
   * whose controller has priority; it faults only for a battlefield entry
   * without an object.
   */
  lemma DefaultConditionMeaning(s: State, source: Oid, priority: int, canCastSorceries: bool)
    ensures var r := ConditionHolds(s, DefaultCondition, source, priority, canCastSorceries);
            && (r == Ok(true) <==> FindZone(s, source) == Some(BattlefieldZone) && source in s.objects
                                   && s.objects[source].attr.controller == priority)
            && (r.Err? <==> FindZone(s, source) == Some(BattlefieldZone) && source !in s.objects)
  {
  }

  /**
   * `CostEvent.CanPay(source)`: the cost bound to `source`, then asked
   * whether it can be paid. Tapping needs the source untapped (looked up,
   * so a missing object faults), a mana symbol is always payable, and a
   * container asks its costs in order and stops at the first refusal.
   */
  function CostPayable(s: State, c: CostEvent, source: Oid): (r: Result<bool>)
    ensures c.TapSelfCost? ==> (r.Err? <==> source !in s.objects) &&
                               (r.Ok? ==> r.value == !s.objects[source].status.tapped)
    ensures c.PayManaCost? ==> r == Ok(true)
    ensures c.CostContainer? ==> r == AllPayable(s, c.costs, source)
    decreases c, 1
  {
    match c
    case TapSelfCost =>
      if source !in s.objects then Err(KeyNotFoundException) else Ok(!s.objects[source].status.tapped)
    case PayManaCost(_) => Ok(true)
    case CostContainer(cs) => AllPayable(s, cs, source)
  }

  /** Each cost asked in order; the first fault or refusal is the answer. */
  function AllPayable(s: State, cs: seq<CostEvent>, source: Oid): (r: Result<bool>)
    ensures r == Ok(true) <==> forall i :: 0 <= i < |cs| ==> CostPayable(s, cs[i], source) == Ok(true)
    ensures r.Err? ==> exists i :: 0 <= i < |cs| && CostPayable(s, cs[i], source).Err?
    decreases cs, 0
  {
    if cs == [] then Ok(true)
    else
      match CostPayable(s, cs[0], source)
      case Err(f) => Err(f)
      case Ok(b) =>
        if !b then Ok(false)
        else
          var rest := AllPayable(s, cs[1..], source);
          assert forall i :: 1 <= i < |cs| ==> cs[i] == cs[1..][i - 1];
          rest
  }

  /**
   * `CanBeActivated(source)`: the condition first; when it holds, every
   * cost of the ability must be payable.
   */
  function CanBeActivated(s: State, a: Ability, source: Oid, priority: int, canCastSorceries: bool): (r: Result<bool>)
    ensures ConditionHolds(s, a.condition, source, priority, canCastSorceries) == Ok(false) ==> r == Ok(false)
    ensures r == Ok(true) <==> ConditionHolds(s, a.condition, source, priority, canCastSorceries) == Ok(true)
                               && forall i :: 0 <= i < |a.costs| ==> CostPayable(s, a.costs[i], source) == Ok(true)
  {
    match ConditionHolds(s, a.condition, source, priority, canCastSorceries)
    case Err(f) => Err(f)
    case Ok(b) => if !b then Ok(false) else AllPayable(s, a.costs, source)
  }

  // ----------------------------------------------------------------------
  // Resolution
  // ----------------------------------------------------------------------

  /** A target of the table that has been declared. */
  predicate IsDeclared(targets: map<TargetId, TargetState>, t: TargetId)
  {
    t in targets && targets[t].declared
  }

  /** Whether every target of a list is declared, checked from the front. */
  function AllDeclared(targets: map<TargetId, TargetState>, ts: seq<TargetId>): (r: bool)
    ensures r <==> forall i :: 0 <= i < |ts| ==> IsDeclared(targets, ts[i])
  {
    if ts == [] then true
    else
      assert forall i :: 1 <= i < |ts| ==> ts[i] == ts[1..][i - 1];
      IsDeclared(targets, ts[0]) && AllDeclared(targets, ts[1..])
  }

  /**
   * `GetResolutionEvents(source)` (and the events `Resolve` pushes): a fault
   * when any target is undeclared, otherwise one effect event per effect,
   * in order, every one sharing the resolution's target list.
   */
  function ResolutionEvents(source: Oid, res: Resolution, targets: map<TargetId, TargetState>): (r: Result<seq<Event>>)
    ensures r.Err? <==> exists i :: 0 <= i < |res.targets| && !IsDeclared(targets, res.targets[i])
    ensures r.Err? ==> r.fault == InvalidOperationException
    ensures r.Ok? ==> |r.value| == |res.effects|
                      && forall i :: 0 <= i < |res.effects| ==> r.value[i] == EffectEvent(source, res.effects[i], res.targets)
  {
    if !AllDeclared(targets, res.targets) then Err(InvalidOperationException)
    else Ok(seq(|res.effects|, i requires 0 <= i < |res.effects| => EffectEvent(source, res.effects[i], res.targets)))
  }

  // ----------------------------------------------------------------------
  // Static abilities
  // ----------------------------------------------------------------------

  /** `StaticAbility`: a list of modifications, added to in place. */
  class StaticAbility {
    var modifications: seq<Modification>

    /** `StaticAbility(params mods)`. */
    constructor (mods: seq<Modification>)
      ensures modifications == mods
    {
      modifications := mods;
    }

    /** `AddModification`: appended after the others. */
    method AddModification(m: Modification)
      modifies this
      ensures modifications == old(modifications) + [m]
    {
      modifications := modifications + [m];
    }

    /** `GetModifications`: the list, in the order added. */
    function GetModifications(): seq<Modification>
      reads this
    {
      modifications
    }
  }

  /** Modifications added one by one come back in the order they were added. */
  method AddInOrder(a: StaticAbility, mods: seq<Modification>)
    modifies a
    ensures a.GetModifications() == old(a.GetModifications()) + mods
  {
    var i := 0;
    while i < |mods|
      invariant 0 <= i <= |mods|
      invariant a.modifications == old(a.modifications) + mods[..i]
    {
      a.AddModification(mods[i]);
      assert mods[..i + 1] == mods[..i] + [mods[i]];
      i := i + 1;
    }
    assert mods[..i] == mods;
  }
}
