/**
 * Modifications: the deltas continuous effects apply to object attributes.
 * An integer or mana-cost modification overrides, adds or subtracts its
 * value; a type modification adds and then removes types from a set.
 */
module Modifications {
  import opened CardTypes
  import opened Mana

  /** `Modification.Operation`, with its underlying values -1, 0 and 1. */
  datatype Operation = Subtract | Override | Add

  function OperationValue(op: Operation): (v: int)
    ensures -1 <= v <= 1
    ensures v == 0 <==> op == Override
  {
    match op
    case Subtract => -1
    case Override => 0
    case Add => 1
  }

  /** The operation every integer and mana-cost modification is constructed with. */
  const DefaultOperation := Override

  /** `Modification<T>.Modify` of the base class: the input is ignored. */
  function BaseModify<T>(value: T, input: T): T
  {
    value
  }

  /** The base modification gives the same result for every input. */
  lemma BaseModifyIgnoresInput<T>(value: T, a: T, b: T)
    ensures BaseModify(value, a) == BaseModify(value, b) == value
  {
  }

  /** `IntMod`. */
  datatype IntMod = IntMod(op: Operation, value: int)

  /**
   * `IntMod.Modify`: override gives the value; add and subtract move the
   * input by the value in the direction the operation's sign gives.
   */
  function ModifyInt(m: IntMod, input: int): (r: int)
    ensures m.op == Override ==> r == m.value
    ensures m.op != Override ==> r - input == OperationValue(m.op) * m.value
  {
    match m.op
    case Override => m.value
    case Add => input + m.value
    case Subtract => input - m.value
  }

  /** An added value is taken away again by subtracting it. */
  lemma IntAddSubtractRoundTrip(v: int, input: int)
    ensures ModifyInt(IntMod(Subtract, v), ModifyInt(IntMod(Add, v), input)) == input
  {
  }

  /**
   * With the operation left at its default, as every `IntMod` is, the
   * modification is the value whatever the input.
   */
  lemma DefaultIntModOverrides(v: int, input: int)
    ensures ModifyInt(IntMod(DefaultOperation, v), input) == v
  {
  }

  /** `ManaCostMod`. */
  datatype ManaCostMod = ManaCostMod(op: Operation, value: ManaCost)

  /** `ManaCostMod.Modify`: override, or the cost `+` or `-` the value. */
  function ModifyCost(m: ManaCostMod, input: ManaCost): (r: ManaCost)
    ensures m.op == Override ==> r == m.value
    ensures m.op == Add ==> multiset(r.symbols) == multiset(input.symbols) + multiset(m.value.symbols)
    ensures m.op == Subtract ==>
              forall c :: c in ColorValues ==> CountColor(r.symbols, c) == Surplus(input, m.value, c)
  {
    match m.op
    case Override => m.value
    case Add => Plus(input, m.value)
    case Subtract =>
      assert forall c :: c in ColorValues ==> CountColor(Minus(input, m.value).symbols, c) == Surplus(input, m.value, c) by {
        forall c | c in ColorValues
          ensures CountColor(Minus(input, m.value).symbols, c) == Surplus(input, m.value, c)
        {
          MinusCounts(input, m.value, c);
        }
      }
      Minus(input, m.value)
  }

  /** Adding a cost and subtracting it again gives back the same symbols. */
  lemma CostAddSubtractRoundTrip(v: ManaCost, input: ManaCost)
    requires forall s :: s in input.symbols ==> s.color in ColorValues
    ensures CostEquals(ModifyCost(ManaCostMod(Subtract, v), ModifyCost(ManaCostMod(Add, v), input)), input)
  {
    var sum := ModifyCost(ManaCostMod(Add, v), input);
    var m := ModifyCost(ManaCostMod(Subtract, v), sum);
    forall s
      ensures multiset(m.symbols)[s] == multiset(input.symbols)[s]
    {
      MinusCounts(sum, v, s.color);
      if s.color !in ColorValues {
        assert s !in input.symbols;
      }
    }
    assert multiset(m.symbols) == multiset(input.symbols);
  }

  /** With the default operation every `ManaCostMod` replaces the cost. */
  lemma DefaultCostModOverrides(v: ManaCost, input: ManaCost)
    ensures ModifyCost(ManaCostMod(DefaultOperation, v), input) == v
  {
  }

  /** `TypeMod<T>`: types to add, then types to remove. */
  datatype TypeMod<T> = TypeMod(typesToAdd: seq<T>, typesToRemove: seq<T>)

  /** What `TypeMod.Modify` computes: the input with the additions, less the removals. */
  function TypeModSpec<T>(m: TypeMod<T>, input: set<T>): (r: set<T>)
  {
    (input + set t | t in m.typesToAdd) - set t | t in m.typesToRemove
  }

  /** `TypeMod.Modify`: copies the input, adds each type, then removes each type. */
  method TypeModify<T>(m: TypeMod<T>, input: set<T>) returns (output: set<T>)
    ensures output == TypeModSpec(m, input)
  {
    output := input;
    var i := 0;
    while i < |m.typesToAdd|
      invariant 0 <= i <= |m.typesToAdd|
      invariant output == input + set t | t in m.typesToAdd[..i]
    {
      assert m.typesToAdd[..i + 1] == m.typesToAdd[..i] + [m.typesToAdd[i]];
      output := output + {m.typesToAdd[i]};
      i := i + 1;
    }
    assert m.typesToAdd[..i] == m.typesToAdd;
    ghost var added := output;
    var j := 0;
    while j < |m.typesToRemove|
      invariant 0 <= j <= |m.typesToRemove|
      invariant output == added - set t | t in m.typesToRemove[..j]
    {
      assert m.typesToRemove[..j + 1] == m.typesToRemove[..j] + [m.typesToRemove[j]];
      output := output - {m.typesToRemove[j]};
      j := j + 1;
    }
    assert m.typesToRemove[..j] == m.typesToRemove;
  }

  /**
   * A type ends in the result exactly when it was in the input or added,
   * and was not removed; so a type both added and removed ends absent.
   */
  lemma TypeModMembership<T>(m: TypeMod<T>, input: set<T>, t: T)
    ensures t in TypeModSpec(m, input) <==> (t in input || t in m.typesToAdd) && t !in m.typesToRemove
    ensures t in m.typesToAdd && t in m.typesToRemove ==> t !in TypeModSpec(m, input)
  {
  }

  /** Applying the same type modification twice changes nothing more. */
  lemma TypeModIdempotent<T>(m: TypeMod<T>, input: set<T>)
    ensures TypeModSpec(m, TypeModSpec(m, input)) == TypeModSpec(m, input)
  {
  }

  /** The modifications an effect can carry, one per kind of attribute. */
  datatype Modification =
    | NameMod(name: string)
    | PowerToughnessMod(intMod: IntMod)
    | CostMod(costMod: ManaCostMod)
    | CardTypeMod(cardTypes: TypeMod<CardType>)
    | SuperTypeMod(superTypes: TypeMod<SuperType>)
    | SubTypeMod(subTypes: TypeMod<SubType>)
}
