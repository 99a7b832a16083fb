/** Display names of the enums, and the colour bit-mask tests. */
module EnumStrings {
  import opened CardTypes
  import opened Phases

  /**
   * `color.HasColor(test)`: every bit of `test` is set in `color`, so
   * every colour has Generic (the empty mask).
   */
  function HasColor(color: Color, test: Color): (r: bool)
    ensures r <==> test & !color == 0
    ensures test == Generic ==> r
  {
    test & color == test
  }

  /**
   * The values of `vals` whose bits are all set in `input`, in order
   * (`Enum.HasFlag(v)` is the same bit test as `HasColor(input, v)`).
   */
  function FlagsIn(input: Color, vals: seq<Color>): seq<Color>
  {
    if vals == [] then []
    else FlagsIn(input, vals[..|vals| - 1])
         + (if HasColor(input, vals[|vals| - 1]) then [vals[|vals| - 1]] else [])
  }

  /**
   * `GetFlags` on a `Color`: walks `Enum.GetValues` and keeps every named
   * value whose bits are all set in `input`.
   */
  method GetFlags(input: Color) returns (flags: seq<Color>)
    ensures flags == FlagsIn(input, ColorValues)
  {
    flags := [];
    var k := 0;
    while k < |ColorValues|
      invariant 0 <= k <= |ColorValues|
      invariant flags == FlagsIn(input, ColorValues[..k])
    {
      var value := ColorValues[k];
      assert ColorValues[..k + 1][..k] == ColorValues[..k];
      if HasColor(input, value) {
        flags := flags + [value];
      }
      k := k + 1;
    }
    assert ColorValues[..k] == ColorValues;
  }

  lemma {:induction false} FlagsInMembers(input: Color, vals: seq<Color>)
    ensures forall v :: v in FlagsIn(input, vals) <==> v in vals && HasColor(input, v)
    ensures |FlagsIn(input, vals)| <= |vals|
  {
    if vals != [] {
      var init, last := vals[..|vals| - 1], vals[|vals| - 1];
      FlagsInMembers(input, init);
      assert vals == init + [last];
      forall v ensures v in FlagsIn(input, vals) <==> v in vals && HasColor(input, v) {
        assert v in vals <==> v in init || v == last;
      }
    }
  }

  /**
   * The flags of a colour are exactly the named values it contains; the
   * zero value Generic is always the first of them.
   */
  lemma GetFlagsMeaning(input: Color)
    ensures forall v :: v in FlagsIn(input, ColorValues) <==> v in ColorValues && HasColor(input, v)
    ensures |FlagsIn(input, ColorValues)| > 0 && FlagsIn(input, ColorValues)[0] == Generic
  {
    FlagsInMembers(input, ColorValues);
    FlagsInStartsGeneric(input, ColorValues);
  }

  lemma {:induction false} FlagsInStartsGeneric(input: Color, vals: seq<Color>)
    requires |vals| > 0 && vals[0] == Generic
    ensures |FlagsIn(input, vals)| > 0 && FlagsIn(input, vals)[0] == Generic
  {
    if |vals| > 1 {
      FlagsInStartsGeneric(input, vals[..|vals| - 1]);
    }
  }

  /** Instants and sorceries are the only card types that are not permanents. */
  function IsPermanentType(t: CardType): (r: bool)
    ensures !r <==> t in {Instant, Sorcery}
  {
    match t
    case Instant => false
    case Sorcery => false
    case _ => true
  }

  function AbilityTypeName(t: AbilityType): string
  {
    match t
    case Activated => "Activated Ability"
    case Triggered => "Triggered Ability"
  }

  function CardTypeName(t: CardType): string
  {
    match t
    case Artifact => "Artifact"
    case Creature => "Creature"
    case Enchantment => "Enchantment"
    case Instant => "Instant"
    case Land => "Land"
    case Planeswalker => "Planeswalker"
    case Sorcery => "Sorcery"
  }

  function SuperTypeName(t: SuperType): string
  {
    match t
    case Basic => "Basic"
    case Legendary => "Legendary"
    case Token => "Token"
  }

  /** `Enum.GetName` of the subtype. */
  function SubTypeName(t: SubType): string
  {
    match t
    case Ogre => "Ogre"
    case Warrior => "Warrior"
    case Crab => "Crab"
  }

  function PhaseName(p: PhaseType): string
  {
    match p
    case Untap => "Untap step"
    case Upkeep => "Upkeep step"
    case Draw => "Draw step"
    case Main1 => "Precombat main phase"
    case CombatStart => "Beginning of combat step"
    case CombatAttackers => "Declare attackers step"
    case CombatBlockers => "Declare blockers step"
    case CombatDamage => "Combat damage step"
    case CombatEnd => "End of combat step"
    case Main2 => "Postcombat main phase"
    case End => "End step"
    case Cleanup => "Cleanup step"
  }

  /** Each of the twelve phases has its own non-empty name. */
  lemma PhaseNamesDistinct()
    ensures forall p :: |PhaseName(p)| > 0
    ensures forall p, q :: PhaseName(p) == PhaseName(q) ==> p == q
  {
    forall p, q | PhaseName(p) == PhaseName(q) ensures p == q {
      assert PhaseName(p)[..3] == PhaseName(q)[..3];
      assert |PhaseName(p)| == |PhaseName(q)|;
    }
  }

  /** Card, super- and subtype names are pairwise distinct within their enum. */
  lemma TypeNamesDistinct()
    ensures forall s, t :: CardTypeName(s) == CardTypeName(t) ==> s == t
    ensures forall s, t :: SuperTypeName(s) == SuperTypeName(t) ==> s == t
    ensures forall s, t :: SubTypeName(s) == SubTypeName(t) ==> s == t
  {
    forall s, t | CardTypeName(s) == CardTypeName(t) ensures s == t {
      assert CardTypeName(s)[0] == CardTypeName(t)[0];
      assert |CardTypeName(s)| == |CardTypeName(t)|;
    }
    forall s, t | SuperTypeName(s) == SuperTypeName(t) ensures s == t {
      assert SuperTypeName(s)[0] == SuperTypeName(t)[0];
    }
    forall s, t | SubTypeName(s) == SubTypeName(t) ensures s == t {
      assert SubTypeName(s)[0] == SubTypeName(t)[0];
    }
  }
}
