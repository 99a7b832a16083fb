/**
 * The flag enum `Color` (a 32-bit bit mask) and the card type enums
 * nested in `MTGObject`.
 */
module CardTypes {
  /** `Color` is a `[Flags]` enum over `int`; its values are bit masks. */
  type Color = bv32

  const Generic: Color := 0
  const White: Color := 1
  const Blue: Color := 2
  const Black: Color := 4
  const Red: Color := 8
  const Green: Color := 16

  const Azorius: Color := White | Blue
  const Dimir: Color := Blue | Black
  const Rakdos: Color := Black | Red
  const Gruul: Color := Red | Green
  const Selesnya: Color := Green | White
  const Orzhov: Color := White | Black
  const Izzet: Color := Blue | Red
  const Golgari: Color := Black | Green
  const Boros: Color := Red | White
  const Simic: Color := Green | Blue

  /**
   * `Enum.GetValues(typeof(Color))`: the sixteen named values, in
   * ascending order of their numeric value.
   */
  const ColorValues: seq<Color> :=
    [Generic, White, Blue, Azorius, Black, Orzhov, Dimir, Red,
     Boros, Izzet, Rakdos, Green, Selesnya, Simic, Golgari, Gruul]

  /** The five basic colours, as `ManaSymbol.GetBasicColors` lists them. */
  const BasicColors: seq<Color> := [White, Blue, Black, Red, Green]

  datatype CardType = Artifact | Creature | Enchantment | Instant | Land | Planeswalker | Sorcery
  datatype SuperType = Legendary | Basic | Token
  datatype SubType = Ogre | Warrior | Crab

  /** `AbilityObject.AbilityType`, as far as `EnumStrings` names it. */
  datatype AbilityType = Activated | Triggered
}
