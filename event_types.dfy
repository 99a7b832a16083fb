/**
 * The events of the rules engine, and the abilities and effects that
 * carry them. Every event class of the engine is one constructor of
 * `Event`; an event that reads another event's fields (a container, an
 * activation) holds that data as a value.
 */
module EventTypes {
  import opened Wrappers
  import opened Oids
  import opened Zones
  import opened Mana
  import opened Objects
  import opened Targets

  /** `MTG.TriggeredAbilityEntry`: which object's triggered ability is waiting. */
  datatype TriggerEntry = TriggerEntry(source: Oid, ability: nat)

  /**
   * The activation conditions an activated ability is built from: the
   * three named in `ActivatedAbility`, and their conjunction.
   */
  datatype Condition =
    | OnBattlefield
    | ControlledByPriorityPlayer
    | SorceryTiming
    | Both(left: Condition, right: Condition)

  /** `DefaultCondition`: on the battlefield and controlled by the player with priority. */
  const DefaultCondition := Both(OnBattlefield, ControlledByPriorityPlayer)

  /** `EffectEvent.Effect`: card content; applying it pushes these events in order. */
  datatype Effect = Effect(pushes: seq<Event>)

  /** `ResolutionAbility`: the effects to run and the targets they need. */
  datatype Resolution = Resolution(effects: seq<Effect>, targets: seq<TargetId>)

  /** `ActivatedAbility`, and `ManaAbility` when `isMana` holds. */
  datatype Ability = Ability(costs: seq<CostEvent>, condition: Condition, resolution: Resolution, isMana: bool)

  datatype Event =
    | TapEvent(source: Oid)
    | UntapEvent(source: Oid)
    | AddManaEvent(player: int, mana: ManaSymbol)
    | RemoveManaEvent(player: int, mana: ManaSymbol)
      /** `from` is `None` where the old zone was looked up and none was found. */
    | MoveZoneEvent(from: Option<ZoneId>, to: ZoneId, oid: Oid)
    | GainLifeEvent(player: int, amount: int)
    | LoseLifeEvent(player: int, amount: int)
    | DealDamageEvent(target: PlayerOrOid, amount: int)
    | DrawCardEvent(player: int)
    | DiscardCardEvent(oid: Oid)
      /** `targets` is the target list the resolution shares with every effect. */
    | EffectEvent(source: Oid, effect: Effect, targets: seq<TargetId>)
    | EventContainer(events: seq<Event>)
    | PlayLandEvent(source: Oid)
    | PushTriggeredAbilityEvent(entry: TriggerEntry)
    | GenerateAbilityObjectEvent(source: Oid, resolution: Resolution)
    | ActivateAbilityEvent(source: Oid, ability: Ability)
    | DeclareTargetEvent(source: Oid, tid: TargetId)
    | CastSpellEvent(source: Oid)
      /** A cost event after `SetSource(source)`. */
    | BoundCost(source: Oid, cost: CostEvent)

  /** One answer to a `ManaChoice`: cancel, spend a pool symbol, or activate a mana ability first. */
  datatype ManaAnswer =
    | CancelPayment
    | UseMana(mana: ManaSymbol)
    | ActivateManaAbility(abilitySource: Oid, ability: Ability)

  /** `EventContainerPayManaCost.Auto`: one mana payment per symbol of the cost, in order. */
  function PayManaCostAuto(cost: ManaCost): (c: CostEvent)
    ensures c.CostContainer? && |c.costs| == |cost.symbols|
    ensures forall i :: 0 <= i < |cost.symbols| ==> c.costs[i] == PayManaCost(cost.symbols[i])
  {
    CostContainer(seq(|cost.symbols|, i requires 0 <= i < |cost.symbols| => PayManaCost(cost.symbols[i])))
  }

  /** `EventContainerDrawCards.Auto`: `count` draws for one player. */
  function DrawCardsAuto(player: int, count: nat): (e: Event)
    ensures e.EventContainer? && |e.events| == count
    ensures forall i :: 0 <= i < count ==> e.events[i] == DrawCardEvent(player)
  {
    EventContainer(seq(count, i requires 0 <= i < count => DrawCardEvent(player)))
  }

  /** `EventContainerDiscardCards.Auto` on a list of objects: one discard per object. */
  function DiscardCardsAuto(oids: seq<Oid>): (e: Event)
    ensures e.EventContainer? && |e.events| == |oids|
    ensures forall i :: 0 <= i < |oids| ==> e.events[i] == DiscardCardEvent(oids[i])
  {
    EventContainer(seq(|oids|, i requires 0 <= i < |oids| => DiscardCardEvent(oids[i])))
  }

  // ----------------------------------------------------------------------
  // Sizes, for the termination of nested event application
  // ----------------------------------------------------------------------

  function EventSize(e: Event): nat
    decreases e, 1
  {
    match e
    case EventContainer(es) => 1 + EventsSize(es)
    case EffectEvent(_, eff, _) => 1 + EventsSize(eff.pushes)
    case ActivateAbilityEvent(_, ab) => 1 + EffectsSize(ab.resolution.effects)
    case _ => 1
  }

  function EventsSize(es: seq<Event>): nat
    decreases es, 0
  {
    if es == [] then 0 else EventsSize(es[..|es| - 1]) + EventSize(es[|es| - 1])
  }

  function EffectsSize(effs: seq<Effect>): nat
    decreases effs
  {
    if effs == [] then 0 else EffectsSize(effs[..|effs| - 1]) + 1 + EventsSize(effs[|effs| - 1].pushes)
  }

  lemma {:induction false} EventsSizeBound(es: seq<Event>, i: nat)
    requires i < |es|
    ensures EventSize(es[i]) <= EventsSize(es)
    decreases es
  {
    if i < |es| - 1 {
      EventsSizeBound(es[..|es| - 1], i);
    }
  }

  lemma {:induction false} EffectsSizeBound(effs: seq<Effect>, i: nat)
    requires i < |effs|
    ensures 1 + EventsSize(effs[i].pushes) <= EffectsSize(effs)
    decreases effs
  {
    if i < |effs| - 1 {
      EffectsSizeBound(effs[..|effs| - 1], i);
    }
  }

  function CostSize(c: CostEvent): nat
    decreases c, 1
  {
    match c
    case CostContainer(cs) => 1 + CostsSize(cs)
    case _ => 1
  }

  function CostsSize(cs: seq<CostEvent>): nat
    decreases cs, 0
  {
    if cs == [] then 0 else CostsSize(cs[..|cs| - 1]) + CostSize(cs[|cs| - 1])
  }

  lemma {:induction false} CostsSizeBound(cs: seq<CostEvent>, i: nat)
    requires i < |cs|
    ensures CostSize(cs[i]) <= CostsSize(cs)
    decreases cs
  {
    if i < |cs| - 1 {
      CostsSizeBound(cs[..|cs| - 1], i);
    }
  }
}
