/**
 * Game objects: immutable base card attributes, the current attributes
 * rebuilt from them, and the permanent status flags. The structs of the
 * object are values here; the game stores and replaces them.
 */
module Objects {
  import opened Wrappers
  import opened CardTypes
  import opened EnumStrings
  import opened Mana
  import opened Oids

  /** `BaseCardAttributes`: what a card is printed with. */
  datatype BaseCardAttributes = BaseCardAttributes(
    name: string,
    cardTypes: set<CardType>,
    superTypes: set<SuperType>,
    subTypes: set<SubType>,
    manaCost: ManaCost,
    power: int,
    toughness: int,
    owner: int,
    loyalty: int)

  /** `MTGObjectAttributes`: the current, recomputed attributes. */
  datatype Attributes = Attributes(
    name: string,
    manaCost: ManaCost,
    power: int,
    toughness: int,
    controller: int)

  /**
   * A default-constructed attributes struct. The C# name and mana cost
   * are `null` there; the model has no null and uses the empty name and
   * the empty cost.
   */
  const DefaultAttributes := Attributes("", ManaCost([]), 0, 0, 0)

  /** `PermanentStatus`, with the marked damage the cleanup step clears. */
  datatype PermanentStatus = PermanentStatus(
    tapped: bool,
    flipped: bool,
    facedown: bool,
    phasedout: bool,
    damage: int)

  const DefaultStatus := PermanentStatus(false, false, false, false, 0)

  /**
   * The costs an object or ability generates: tapping its source, paying
   * one mana symbol, or a container of costs paid together.
   */
  datatype CostEvent =
    | TapSelfCost
    | PayManaCost(mana: ManaSymbol)
    | CostContainer(costs: seq<CostEvent>)

  /** Targets are shared objects, named here by an identifier into the game's target table. */
  type TargetId = nat

  /** What kind of object: a card, or an ability object standing for an ability on the stack. */
  datatype ObjectKind = Card | AbilityObject(abilitySource: Oid)

  /**
   * An `MTGObject`. `costs` and `targets` are what casting the object pays
   * and declares.
   */
  datatype MtgObject = MtgObject(
    base: BaseCardAttributes,
    attr: Attributes,
    status: PermanentStatus,
    kind: ObjectKind,
    costs: seq<CostEvent>,
    targets: seq<TargetId>)

  /** `new MTGObject(baseAttr)`: only the base attributes are set. */
  function NewObject(base: BaseCardAttributes, costs: seq<CostEvent>, targets: seq<TargetId>): (o: MtgObject)
    ensures o.base == base && o.attr == DefaultAttributes && o.status == DefaultStatus
  {
    MtgObject(base, DefaultAttributes, DefaultStatus, Card, costs, targets)
  }

  /** `Import`: copies name, cost, power and toughness, and gives control to the owner. */
  function Import(base: BaseCardAttributes): (a: Attributes)
    ensures a.name == base.name && a.manaCost == base.manaCost
    ensures a.power == base.power && a.toughness == base.toughness
    ensures a.controller == base.owner
  {
    Attributes(base.name, base.manaCost, base.power, base.toughness, base.owner)
  }

  /** `ResetAttributes`: fresh attributes imported from the unchanging base. */
  function ResetAttributes(o: MtgObject): (r: MtgObject)
    ensures r.attr == Import(o.base)
    ensures r.base == o.base && r.status == o.status && r.kind == o.kind
    ensures r.costs == o.costs && r.targets == o.targets
  {
    o.(attr := Import(o.base))
  }

  /** `PermanentStatus.Reset`: clears the four flags and keeps the marked damage. */
  function ResetStatus(s: PermanentStatus): (r: PermanentStatus)
    ensures !r.tapped && !r.flipped && !r.facedown && !r.phasedout
    ensures r.damage == s.damage
  {
    s.(tapped := false, flipped := false, facedown := false, phasedout := false)
  }

  /** `identity`: the colour identity of the current mana cost. */
  function ObjectIdentity(o: MtgObject): (c: Color)
    ensures forall s :: s in o.attr.manaCost.symbols ==> HasColor(c, s.color)
  {
    IdentityContainsAll(o.attr.manaCost.symbols);
    IdentityOf(o.attr.manaCost.symbols)
  }

  /** Resetting an object's attributes gives it the identity of its printed cost. */
  lemma ResetIdentity(o: MtgObject)
    ensures ObjectIdentity(ResetAttributes(o)) == IdentityOf(o.base.manaCost.symbols)
  {
  }

  /**
   * `CalculateAttributes` as written: after the reset it writes
   * `indexes[i]` into a list that is still empty, which faults as soon as
   * there is one modification, before the (empty) layer loop is reached.
   */
  function CalculateAttributesAsWritten(o: MtgObject, modCount: nat): (r: Result<MtgObject>)
    ensures r.Ok? <==> modCount == 0
    ensures r.Ok? ==> r.value.attr == Import(o.base) && r.value.base == o.base
    ensures r.Err? ==> r.fault == ArgumentOutOfRangeException
  {
    if modCount == 0 then Ok(ResetAttributes(o)) else Err(ArgumentOutOfRangeException)
  }

  /**
   * `CalculateAttributes` as intended: the layers are still empty, so the
   * result is the reset attributes whatever modifications are active.
   */
  function CalculateAttributes(o: MtgObject, modCount: nat): (r: MtgObject)
    ensures r.attr == Import(o.base) && r.base == o.base && r.status == o.status
  {
    ResetAttributes(o)
  }

  /** Recalculating is idempotent, and with no modifications the fixed form agrees with the code. */
  lemma CalculateAttributesStable(o: MtgObject, n: nat, m: nat)
    ensures CalculateAttributes(CalculateAttributes(o, n), m) == CalculateAttributes(o, n)
    ensures CalculateAttributes(o, 0) == ResetAttributes(o)
  {
  }
}
