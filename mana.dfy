/**
 * Mana symbols, mana costs and a player's mana pool.
 *
 * A `ManaSymbol` is an immutable colour; two symbols are equal exactly when
 * their colours are, which is Dafny's datatype equality. A `ManaCost` is an
 * ordered list of symbols compared as a multiset.
 */
module Mana {
  import opened Wrappers
  import opened CardTypes
  import opened EnumStrings
  import opened Lists

  datatype ManaSymbol = ManaSymbol(color: Color)

  /** `ManaSymbol.One`, the generic symbol. */
  const One: ManaSymbol := ManaSymbol(Generic)

  /** Every symbol has converted mana cost 1. */
  const SymbolCmc: nat := 1

  /** The letter of a colour: `1`, `W`, `U`, `B`, `R`, `G`, or `H` for any other mask. */
  function GetColorSymbol(c: Color): (r: string)
    ensures |r| == 1
    ensures r == "H" <==> c !in [Generic, White, Blue, Black, Red, Green]
  {
    if c == Generic then "1"
    else if c == White then "W"
    else if c == Blue then "U"
    else if c == Black then "B"
    else if c == Red then "R"
    else if c == Green then "G"
    else "H"
  }

  /** How many of `basics` the mask `color` contains. */
  function CountBasics(color: Color, basics: seq<Color>): nat
  {
    if basics == [] then 0
    else CountBasics(color, basics[..|basics| - 1])
         + (if HasColor(color, basics[|basics| - 1]) then 1 else 0)
  }

  function Indicator(b: bool): nat
  {
    if b then 1 else 0
  }

  /** The number of the five basic colours contained in `color`. */
  function ColorCount(color: Color): (n: nat)
    ensures n == CountBasics(color, BasicColors)
  {
    var bs := BasicColors;
    assert bs[..4] == [White, Blue, Black, Red] && bs[..4][..3] == [White, Blue, Black];
    assert bs[..4][..3][..2] == [White, Blue] && bs[..4][..3][..2][..1] == [White];
    assert bs[..4][..3][..2][..1][..0] == [];
    assert CountBasics(color, [White]) == Indicator(HasColor(color, White));
    assert CountBasics(color, [White, Blue])
           == Indicator(HasColor(color, White)) + Indicator(HasColor(color, Blue));
    assert CountBasics(color, [White, Blue, Black])
           == CountBasics(color, [White, Blue]) + Indicator(HasColor(color, Black));
    assert CountBasics(color, [White, Blue, Black, Red])
           == CountBasics(color, [White, Blue, Black]) + Indicator(HasColor(color, Red));
    Indicator(HasColor(color, White)) + Indicator(HasColor(color, Blue))
    + Indicator(HasColor(color, Black)) + Indicator(HasColor(color, Red))
    + Indicator(HasColor(color, Green))
  }

  /** `ManaSymbol.GetColorCount`: counts the basic colours in a loop. */
  method GetColorCount(color: Color) returns (count: nat)
    ensures count == ColorCount(color)
    ensures count <= |BasicColors|
  {
    count := 0;
    var k := 0;
    while k < |BasicColors|
      invariant 0 <= k <= |BasicColors|
      invariant count == CountBasics(color, BasicColors[..k])
      invariant count <= k
    {
      assert BasicColors[..k + 1][..k] == BasicColors[..k];
      if HasColor(color, BasicColors[k]) {
        count := count + 1;
      }
      k := k + 1;
    }
    assert BasicColors[..k] == BasicColors;
  }

  /** Generic has no colour, a basic colour one, a guild pair two. */
  lemma ColorCounts()
    ensures ColorCount(Generic) == 0
    ensures ColorCount(White) == 1 && ColorCount(Blue) == 1 && ColorCount(Black) == 1
    ensures ColorCount(Red) == 1 && ColorCount(Green) == 1
    ensures ColorCount(Azorius) == 2 && ColorCount(Dimir) == 2 && ColorCount(Rakdos) == 2
    ensures ColorCount(Gruul) == 2 && ColorCount(Selesnya) == 2 && ColorCount(Orzhov) == 2
    ensures ColorCount(Izzet) == 2 && ColorCount(Golgari) == 2 && ColorCount(Boros) == 2
    ensures ColorCount(Simic) == 2
  {
  }

  /**
   * `cost.CanThisPayForMe(spent)`: a generic cost symbol takes any mana, a
   * one-colour symbol takes mana whose colour bits it contains, and a
   * symbol of two or more colours throws.
   */
  function CanThisPayForMe(cost: ManaSymbol, spent: ManaSymbol): (r: Result<bool>)
    ensures r.Err? <==> ColorCount(cost.color) > 1
    ensures r.Err? ==> r.fault == ArgumentException
    ensures r == Ok(true) && ColorCount(cost.color) == 1 ==> spent.color & !cost.color == 0
  {
    var n := ColorCount(cost.color);
    if n == 0 then Ok(true)
    else if n == 1 then Ok(HasColor(cost.color, spent.color))
    else Err(ArgumentException)
  }

  /** A basic-colour cost is paid by mana of that colour or by generic mana, and by nothing else. */
  lemma BasicCostAccepts(b: Color, spent: ManaSymbol)
    requires b in BasicColors
    ensures CanThisPayForMe(ManaSymbol(b), spent) == Ok(spent.color == b || spent.color == Generic)
  {
    ColorCounts();
  }

  /** A generic cost accepts any mana; a hybrid (guild) cost throws. */
  lemma GenericAndHybridCosts(spent: ManaSymbol, c: Color)
    requires c in [Azorius, Dimir, Rakdos, Gruul, Selesnya, Orzhov, Izzet, Golgari, Boros, Simic]
    ensures CanThisPayForMe(One, spent) == Ok(true)
    ensures CanThisPayForMe(ManaSymbol(c), spent) == Err(ArgumentException)
  {
    ColorCounts();
  }

  function SymbolString(s: ManaSymbol): string
  {
    "{" + GetColorSymbol(s.color) + "}"
  }

  predicate IsColored(s: ManaSymbol)
  {
    s.color != Generic
  }

  /** Symbol equality is colour equality: Azorius is White together with Blue. */
  lemma SymbolEquality(x: ManaSymbol, y: ManaSymbol)
    ensures x == y <==> x.color == y.color
    ensures ManaSymbol(Azorius) == ManaSymbol(White | Blue)
  {
  }

  // ----------------------------------------------------------------------
  // ManaCost
  // ----------------------------------------------------------------------

  datatype ManaCost = ManaCost(symbols: seq<ManaSymbol>)

  /** `new ManaCost(generic, mana...)`: `generic` generic symbols, then `mana`. */
  method NewManaCost(generic: int, mana: seq<ManaSymbol>) returns (c: ManaCost)
    ensures |c.symbols| == (if generic > 0 then generic else 0) + |mana|
    ensures forall i :: 0 <= i < |c.symbols| - |mana| ==> c.symbols[i] == One
    ensures c.symbols[|c.symbols| - |mana|..] == mana
  {
    var syms: seq<ManaSymbol> := [];
    var i := 0;
    while i < generic
      invariant 0 <= i && (generic > 0 ==> i <= generic) && (generic <= 0 ==> i == 0)
      invariant |syms| == i && forall k :: 0 <= k < i ==> syms[k] == One
    {
      syms := syms + [One];
      i := i + 1;
    }
    c := ManaCost(syms + mana);
    assert c.symbols[|syms|..] == mana;
  }

  /** Number of symbols in `s`, one each. */
  function CmcOf(s: seq<ManaSymbol>): nat
  {
    if s == [] then 0 else CmcOf(s[..|s| - 1]) + SymbolCmc
  }

  lemma {:induction false} CmcIsLength(s: seq<ManaSymbol>)
    ensures CmcOf(s) == |s|
  {
    if s != [] {
      CmcIsLength(s[..|s| - 1]);
    }
  }

  /** `cmc`: the sum of the symbols' converted costs, which is their number. */
  method Cmc(c: ManaCost) returns (total: nat)
    ensures total == CmcOf(c.symbols) == |c.symbols|
  {
    total := 0;
    var k := 0;
    while k < |c.symbols|
      invariant 0 <= k <= |c.symbols|
      invariant total == CmcOf(c.symbols[..k])
    {
      assert c.symbols[..k + 1][..k] == c.symbols[..k];
      total := total + SymbolCmc;
      k := k + 1;
    }
    assert c.symbols[..k] == c.symbols;
    CmcIsLength(c.symbols);
  }

  /** The bitwise OR of the colours of `s`. */
  function IdentityOf(s: seq<ManaSymbol>): Color
  {
    if s == [] then Generic else IdentityOf(s[..|s| - 1]) | s[|s| - 1].color
  }

  /** `identity`: ORs the symbol colours together in a loop, starting from Generic. */
  method Identity(c: ManaCost) returns (id: Color)
    ensures id == IdentityOf(c.symbols)
  {
    id := Generic;
    var k := 0;
    while k < |c.symbols|
      invariant 0 <= k <= |c.symbols|
      invariant id == IdentityOf(c.symbols[..k])
    {
      assert c.symbols[..k + 1][..k] == c.symbols[..k];
      id := id | c.symbols[k].color;
      k := k + 1;
    }
    assert c.symbols[..k] == c.symbols;
  }

  lemma OrContains(a: Color, b: Color)
    ensures HasColor(a | b, a) && HasColor(a | b, b)
  {
  }

  lemma OrLeast(a: Color, b: Color, bound: Color)
    requires HasColor(bound, a) && HasColor(bound, b)
    ensures HasColor(bound, a | b)
  {
  }

  lemma HasColorTransitive(a: Color, b: Color, c: Color)
    requires HasColor(a, b) && HasColor(b, c)
    ensures HasColor(a, c)
  {
  }

  /** The identity contains the colour of every symbol of the cost. */
  lemma {:induction false} IdentityContainsAll(s: seq<ManaSymbol>)
    ensures forall x :: x in s ==> HasColor(IdentityOf(s), x.color)
  {
    if s != [] {
      var init, last := s[..|s| - 1], s[|s| - 1];
      IdentityContainsAll(init);
      assert s == init + [last];
      OrContains(IdentityOf(init), last.color);
      forall x | x in init
        ensures HasColor(IdentityOf(s), x.color)
      {
        HasColorTransitive(IdentityOf(s), IdentityOf(init), x.color);
      }
    }
  }

  /** Any colour containing every symbol's colour contains the identity: it is the least such. */
  lemma {:induction false} IdentityIsLeast(s: seq<ManaSymbol>, bound: Color)
    requires forall x :: x in s ==> HasColor(bound, x.color)
    ensures HasColor(bound, IdentityOf(s))
  {
    if s != [] {
      var init, last := s[..|s| - 1], s[|s| - 1];
      assert forall x :: x in init ==> x in s;
      IdentityIsLeast(init, bound);
      OrLeast(IdentityOf(init), last.color, bound);
    }
  }

  /** `cost + cost`: the symbols of `x` followed by those of `y`. */
  function Plus(x: ManaCost, y: ManaCost): (r: ManaCost)
    ensures multiset(r.symbols) == multiset(x.symbols) + multiset(y.symbols)
    ensures |r.symbols| == |x.symbols| + |y.symbols|
  {
    ManaCost(x.symbols + y.symbols)
  }

  /** `==` on costs: the same symbols with the same multiplicities, in any order. */
  predicate CostEquals(x: ManaCost, y: ManaCost)
  {
    multiset(x.symbols) == multiset(y.symbols)
  }

  /** Addition of costs commutes under cost equality, and adds converted costs. */
  lemma PlusCommutes(a: ManaCost, b: ManaCost)
    ensures CostEquals(Plus(a, b), Plus(b, a))
    ensures |Plus(a, b).symbols| == |a.symbols| + |b.symbols|
  {
  }

  /** The identity of a sum is the union of the identities. */
  lemma {:induction false} PlusIdentity(a: ManaCost, b: ManaCost)
    ensures IdentityOf(Plus(a, b).symbols) == IdentityOf(a.symbols) | IdentityOf(b.symbols)
    decreases |b.symbols|
  {
    if b.symbols != [] {
      var init := ManaCost(b.symbols[..|b.symbols| - 1]);
      PlusIdentity(a, init);
      assert Plus(a, b).symbols[..|Plus(a, b).symbols| - 1] == Plus(a, init).symbols;
    } else {
      assert Plus(a, b).symbols == a.symbols;
    }
  }

  /**
   * `operator ==`: equal lengths, then each symbol of `x` is found in and
   * removed from a working copy of `y`.
   */
  method Equals(x: ManaCost, y: ManaCost) returns (eq: bool)
    ensures eq <==> CostEquals(x, y)
  {
    if |x.symbols| != |y.symbols| {
      assert |multiset(x.symbols)| != |multiset(y.symbols)|;
      return false;
    }
    var manaX := x.symbols;
    var manaY := y.symbols;
    var ix := 0;
    while ix < |manaX|
      invariant 0 <= ix <= |manaX|
      invariant multiset(manaY) + multiset(manaX[..ix]) == multiset(y.symbols)
    {
      var found := false;
      var mana := manaX[ix];
      var iy := 0;
      while iy < |manaY|
        invariant 0 <= iy <= |manaY|
        invariant mana !in manaY[..iy]
      {
        if manaY[iy] == mana {
          assert manaY == manaY[..iy] + [mana] + manaY[iy + 1..];
          manaY := manaY[..iy] + manaY[iy + 1..];
          found := true;
          break;
        }
        iy := iy + 1;
      }
      assert manaX[..ix + 1] == manaX[..ix] + [mana];
      if !found {
        assert manaY[..iy] == manaY;
        NotEqualWhenMissing(x.symbols, y.symbols, manaY, ix);
        return false;
      }
      ix := ix + 1;
    }
    assert manaX[..ix] == x.symbols;
    assert |multiset(manaY) + multiset(x.symbols)| == |multiset(manaY)| + |multiset(x.symbols)|;
    assert |multiset(manaY)| == 0;
    assert multiset(manaY) == multiset{};
    return true;
  }

  lemma NotEqualWhenMissing(xs: seq<ManaSymbol>, ys: seq<ManaSymbol>, rest: seq<ManaSymbol>, ix: nat)
    requires ix < |xs|
    requires multiset(rest) + multiset(xs[..ix]) == multiset(ys)
    requires xs[ix] !in rest
    ensures multiset(xs) != multiset(ys)
  {
    var m := xs[ix];
    assert xs == xs[..ix] + [m] + xs[ix + 1..];
    assert multiset(xs)[m] >= multiset(xs[..ix])[m] + 1;
    assert multiset(ys)[m] == multiset(xs[..ix])[m];
  }

  // ----------------------------------------------------------------------
  // Subtraction of costs
  // ----------------------------------------------------------------------

  /** How many symbols of colour `c` a list holds. */
  function CountColor(s: seq<ManaSymbol>, c: Color): nat
  {
    multiset(s)[ManaSymbol(c)]
  }

  /** Symbols of colour `c` that `x` has beyond those of `y`. */
  function Surplus(x: ManaCost, y: ManaCost, c: Color): nat
  {
    var d := CountColor(x.symbols, c) - CountColor(y.symbols, c);
    if d > 0 then d else 0
  }

  /** For each colour of `colors` in turn, its surplus of symbols. */
  function MinusOver(x: ManaCost, y: ManaCost, colors: seq<Color>): seq<ManaSymbol>
  {
    if colors == [] then []
    else MinusOver(x, y, colors[..|colors| - 1])
         + Repeat(ManaSymbol(colors[|colors| - 1]), Surplus(x, y, colors[|colors| - 1]))
  }

  /** `operator -`: the surplus of each named colour, colour by colour in enum order. */
  function Minus(x: ManaCost, y: ManaCost): ManaCost
  {
    ManaCost(MinusOver(x, y, ColorValues))
  }

  /** `operator -` as written: for each named colour, count in both costs, then append. */
  method Subtract(x: ManaCost, y: ManaCost) returns (final: ManaCost)
    ensures final == Minus(x, y)
  {
    var syms: seq<ManaSymbol> := [];
    var k := 0;
    while k < |ColorValues|
      invariant 0 <= k <= |ColorValues|
      invariant syms == MinusOver(x, y, ColorValues[..k])
    {
      var color := ColorValues[k];
      var countX := CountOf(x.symbols, color);
      var countY := CountOf(y.symbols, color);
      var finalCount := countX as int - countY as int;
      var i := 0;
      ghost var before := syms;
      while i < finalCount
        invariant 0 <= i && (finalCount > 0 ==> i <= finalCount) && (finalCount <= 0 ==> i == 0)
        invariant syms == before + Repeat(ManaSymbol(color), i)
      {
        syms := syms + [ManaSymbol(color)];
        i := i + 1;
      }
      assert i == Surplus(x, y, color);
      assert ColorValues[..k + 1][..k] == ColorValues[..k];
      k := k + 1;
    }
    assert ColorValues[..k] == ColorValues;
    final := ManaCost(syms);
  }

  /** Counts the symbols of colour `c` in a loop. */
  method CountOf(s: seq<ManaSymbol>, c: Color) returns (n: nat)
    ensures n == CountColor(s, c)
  {
    n := 0;
    var k := 0;
    while k < |s|
      invariant 0 <= k <= |s|
      invariant n == multiset(s[..k])[ManaSymbol(c)]
    {
      assert s[..k + 1] == s[..k] + [s[k]];
      if s[k].color == c {
        n := n + 1;
      }
      k := k + 1;
    }
    assert s[..k] == s;
  }

  lemma {:induction false} MinusOverCounts(x: ManaCost, y: ManaCost, colors: seq<Color>, c: Color)
    requires forall i, j :: 0 <= i < j < |colors| ==> colors[i] != colors[j]
    ensures CountColor(MinusOver(x, y, colors), c) == if c in colors then Surplus(x, y, c) else 0
  {
    if colors != [] {
      var init, last := colors[..|colors| - 1], colors[|colors| - 1];
      MinusOverCounts(x, y, init, c);
      RepeatMultiset(ManaSymbol(last), Surplus(x, y, last));
      assert colors == init + [last];
      assert last !in init;
    }
  }

  /**
   * `x - y` holds, of each named colour, exactly the surplus of `x` over
   * `y`; colours that are not named enum values are dropped.
   */
  lemma MinusCounts(x: ManaCost, y: ManaCost, c: Color)
    ensures CountColor(Minus(x, y).symbols, c) == if c in ColorValues then Surplus(x, y, c) else 0
  {
    MinusOverCounts(x, y, ColorValues, c);
  }

  /** `(a + b) - a == b` for costs whose colours are named enum values. */
  lemma PlusMinusRoundTrip(a: ManaCost, b: ManaCost)
    requires forall s :: s in b.symbols ==> s.color in ColorValues
    ensures CostEquals(Minus(Plus(a, b), a), b)
  {
    var m := Minus(Plus(a, b), a);
    forall s ensures multiset(m.symbols)[s] == multiset(b.symbols)[s] {
      MinusCounts(Plus(a, b), a, s.color);
      if s.color !in ColorValues {
        assert s !in b.symbols;
      }
    }
    assert multiset(m.symbols) == multiset(b.symbols);
  }

  /** Subtracting a cost that covers every symbol leaves nothing. */
  lemma MinusCovered(x: ManaCost, y: ManaCost)
    requires multiset(x.symbols) <= multiset(y.symbols)
    ensures Minus(x, y).symbols == []
  {
    var m := Minus(x, y);
    if m.symbols != [] {
      var s := m.symbols[0];
      assert CountColor(m.symbols, s.color) > 0;
      MinusCounts(x, y, s.color);
      assert false;
    }
  }

  // ----------------------------------------------------------------------
  // ToString
  // ----------------------------------------------------------------------

  function DigitString(d: nat): string
    requires d < 10
  {
    ["0123456789"[d]]
  }

  /** Decimal digits of `n`, as string interpolation prints an int. */
  function NatToString(n: nat): (r: string)
    ensures |r| > 0
    decreases n
  {
    if n < 10 then DigitString(n) else NatToString(n / 10) + DigitString(n % 10)
  }

  /** The generic symbols of a list. */
  function GenericCount(s: seq<ManaSymbol>): nat
  {
    if s == [] then 0
    else GenericCount(s[..|s| - 1]) + (if IsColored(s[|s| - 1]) then 0 else SymbolCmc)
  }

  /** The coloured symbols of a list, printed in order. */
  function ColoredString(s: seq<ManaSymbol>): string
  {
    if s == [] then ""
    else ColoredString(s[..|s| - 1]) + (if IsColored(s[|s| - 1]) then SymbolString(s[|s| - 1]) else "")
  }

  /** The printed cost: `{n}` for the generic part, if any, then the coloured symbols. */
  function CostString(c: ManaCost): string
  {
    var g := GenericCount(c.symbols);
    if g > 0 then "{" + NatToString(g) + "}" + ColoredString(c.symbols)
    else ColoredString(c.symbols)
  }

  /** `ManaCost.ToString`: one pass collecting coloured symbols and counting generic ones. */
  method CostToString(c: ManaCost) returns (r: string)
    ensures r == CostString(c)
  {
    var s := "";
    var generic := 0;
    var k := 0;
    while k < |c.symbols|
      invariant 0 <= k <= |c.symbols|
      invariant s == ColoredString(c.symbols[..k]) && generic == GenericCount(c.symbols[..k])
    {
      assert c.symbols[..k + 1][..k] == c.symbols[..k];
      var mana := c.symbols[k];
      if IsColored(mana) {
        s := s + SymbolString(mana);
      } else {
        generic := generic + SymbolCmc;
      }
      k := k + 1;
    }
    assert c.symbols[..k] == c.symbols;
    if generic > 0 {
      r := "{" + NatToString(generic) + "}" + s;
    } else {
      r := s;
    }
  }

  /** Three generic and one red symbol print as `{3}{R}`, whatever their order. */
  lemma CostStringExample()
    ensures CostString(ManaCost([One, ManaSymbol(Red), One, One])) == "{3}{R}"
  {
    var s := [One, ManaSymbol(Red), One, One];
    assert s[..3][..2][..1] == [One] && s[..3][..2] == [One, ManaSymbol(Red)];
    assert s[..3] == [One, ManaSymbol(Red), One] && s[..3][..2][..1][..0] == [];
    assert GenericCount(s[..3][..2][..1]) == 1 && ColoredString(s[..3][..2][..1]) == "";
    assert GenericCount(s[..3][..2]) == 1 && ColoredString(s[..3][..2]) == "{R}";
    assert GenericCount(s[..3]) == 2 && ColoredString(s[..3]) == "{R}";
    assert GenericCount(s) == 3 && ColoredString(s) == "{R}";
    assert NatToString(3) == "3";
  }

  // ----------------------------------------------------------------------
  // ManaPool
  // ----------------------------------------------------------------------

  /** `AddMana` on a pool's list: refused for a symbol of more than one colour. */
  function PoolAdd(pool: seq<ManaSymbol>, mana: ManaSymbol): (r: Result<seq<ManaSymbol>>)
    ensures r.Ok? <==> ColorCount(mana.color) <= 1
    ensures r.Err? ==> r.fault == ArgumentException
    ensures r.Ok? ==> multiset(r.value) == multiset(pool) + multiset{mana} && |r.value| == |pool| + 1
  {
    if ColorCount(mana.color) > 1 then Err(ArgumentException) else Ok(pool + [mana])
  }

  /** `RemoveMana` on a pool's list: whether an equal symbol was there, and the list without it. */
  function PoolRemove(pool: seq<ManaSymbol>, mana: ManaSymbol): (r: (bool, seq<ManaSymbol>))
    ensures r.0 <==> mana in pool
    ensures r.0 ==> multiset(r.1) == multiset(pool) - multiset{mana} && |r.1| == |pool| - 1
    ensures !r.0 ==> r.1 == pool
  {
    (mana in pool, RemoveFirst(pool, mana))
  }

  /** Adding a symbol and removing it again gives back the same pool, as a multiset. */
  lemma AddRemoveRoundTrip(pool: seq<ManaSymbol>, mana: ManaSymbol)
    requires ColorCount(mana.color) <= 1
    ensures PoolRemove(PoolAdd(pool, mana).value, mana).0
    ensures multiset(PoolRemove(PoolAdd(pool, mana).value, mana).1) == multiset(pool)
  {
    var added := PoolAdd(pool, mana).value;
    assert mana in multiset(added);
  }

  /** Removing a present symbol and adding it back gives the same pool, as a multiset. */
  lemma RemoveAddRoundTrip(pool: seq<ManaSymbol>, mana: ManaSymbol)
    requires mana in pool && ColorCount(mana.color) <= 1
    ensures PoolAdd(PoolRemove(pool, mana).1, mana).Ok?
    ensures multiset(PoolAdd(PoolRemove(pool, mana).1, mana).value) == multiset(pool)
  {
  }

  /** A player's mana pool; `tempManaSymbols` shadows it for `PayFor`. */
  class ManaPool {
    var manaSymbols: seq<ManaSymbol>
    var tempManaSymbols: seq<ManaSymbol>

    constructor ()
      ensures manaSymbols == [] && tempManaSymbols == []
    {
      manaSymbols := [];
      tempManaSymbols := [];
    }

    function Count(): (n: nat)
      reads this
      ensures n == |manaSymbols|
    {
      |manaSymbols|
    }

    /** Appends `mana` to both lists, or throws for a symbol of two or more colours. */
    method AddMana(mana: ManaSymbol) returns (r: Result<()>)
      modifies this
      ensures r.Ok? <==> ColorCount(mana.color) <= 1
      ensures r.Ok? ==> (manaSymbols == PoolAdd(old(manaSymbols), mana).value
                         && tempManaSymbols == old(tempManaSymbols) + [mana])
      ensures r.Err? ==> r.fault == ArgumentException && unchanged(this)
    {
      var n := GetColorCount(mana.color);
      if n > 1 {
        return Err(ArgumentException);
      }
      manaSymbols := manaSymbols + [mana];
      tempManaSymbols := tempManaSymbols + [mana];
      return Ok(());
    }

    /** The `params` form: adds in order, stopping at the first symbol that throws. */
    method AddManas(mana: seq<ManaSymbol>) returns (r: Result<()>)
      modifies this
      ensures r.Ok? <==> forall s :: s in mana ==> ColorCount(s.color) <= 1
      ensures r.Ok? ==> manaSymbols == old(manaSymbols) + mana
    {
      var k := 0;
      while k < |mana|
        invariant 0 <= k <= |mana|
        invariant manaSymbols == old(manaSymbols) + mana[..k]
        invariant forall i :: 0 <= i < k ==> ColorCount(mana[i].color) <= 1
      {
        var added := AddMana(mana[k]);
        if added.Err? {
          return added;
        }
        assert mana[..k + 1] == mana[..k] + [mana[k]];
        k := k + 1;
      }
      assert mana[..k] == mana;
      return Ok(());
    }

    /** Removes one symbol equal to `mana` from both lists; false if the pool has none. */
    method RemoveMana(mana: ManaSymbol) returns (result: bool)
      modifies this
      ensures (result, manaSymbols) == PoolRemove(old(manaSymbols), mana)
      ensures result ==> tempManaSymbols == RemoveFirst(old(tempManaSymbols), mana)
      ensures !result ==> tempManaSymbols == old(tempManaSymbols)
    {
      result := mana in manaSymbols;
      manaSymbols := RemoveFirst(manaSymbols, mana);
      if result {
        tempManaSymbols := RemoveFirst(tempManaSymbols, mana);
      }
    }

    /** The `params` form: tries every symbol and reports whether all were removed. */
    method RemoveManas(mana: seq<ManaSymbol>) returns (allRemoved: bool)
      modifies this
      ensures (allRemoved, manaSymbols) == PoolRemoveAll(old(manaSymbols), mana)
    {
      allRemoved := true;
      var k := 0;
      while k < |mana|
        invariant 0 <= k <= |mana|
        invariant PoolRemoveAll(old(manaSymbols), mana)
                  == (allRemoved && PoolRemoveAll(manaSymbols, mana[k..]).0,
                      PoolRemoveAll(manaSymbols, mana[k..]).1)
      {
        assert mana[k..][1..] == mana[k + 1..];
        var removed := RemoveMana(mana[k]);
        if !removed {
          allRemoved := false;
        }
        k := k + 1;
      }
    }

    /** Empties the pool's symbol list. */
    method Empty()
      modifies this`manaSymbols
      ensures manaSymbols == []
    {
      manaSymbols := [];
    }
  }

  /** The `params` removal: each symbol removed in turn, and whether every one was there. */
  function PoolRemoveAll(pool: seq<ManaSymbol>, mana: seq<ManaSymbol>): (bool, seq<ManaSymbol>)
    decreases |mana|
  {
    if mana == [] then (true, pool)
    else
      var first := PoolRemove(pool, mana[0]);
      var rest := PoolRemoveAll(first.1, mana[1..]);
      (first.0 && rest.0, rest.1)
  }

  /**
   * Removing several symbols succeeds exactly when the pool holds all of
   * them, with multiplicity, and then takes exactly those away.
   */
  lemma {:induction false} PoolRemoveAllMeaning(pool: seq<ManaSymbol>, mana: seq<ManaSymbol>)
    ensures PoolRemoveAll(pool, mana).0 <==> multiset(mana) <= multiset(pool)
    ensures PoolRemoveAll(pool, mana).0 ==>
              multiset(PoolRemoveAll(pool, mana).1) == multiset(pool) - multiset(mana)
    decreases |mana|
  {
    if mana != [] {
      var m := mana[0];
      var first := PoolRemove(pool, m);
      PoolRemoveAllMeaning(first.1, mana[1..]);
      assert mana == [m] + mana[1..];
      if !first.0 {
        assert m in multiset(mana);
      }
    }
  }

  /** The pool scenario: red, then two green, then removing red and green leaves one green. */
  lemma PoolScenario()
    ensures PoolAdd([], ManaSymbol(Red)) == Ok([ManaSymbol(Red)])
    ensures PoolAdd([ManaSymbol(Red)], ManaSymbol(Green)) == Ok([ManaSymbol(Red), ManaSymbol(Green)])
    ensures PoolRemoveAll([ManaSymbol(Red), ManaSymbol(Green), ManaSymbol(Green)],
                          [ManaSymbol(Red), ManaSymbol(Green)]) == (true, [ManaSymbol(Green)])
  {
    ColorCounts();
    assert [] + [ManaSymbol(Red)] == [ManaSymbol(Red)];
    assert [ManaSymbol(Red)] + [ManaSymbol(Green)] == [ManaSymbol(Red), ManaSymbol(Green)];
    var rgg := [ManaSymbol(Red), ManaSymbol(Green), ManaSymbol(Green)];
    assert RemoveFirst(rgg, ManaSymbol(Red)) == rgg[1..] == [ManaSymbol(Green), ManaSymbol(Green)];
    var gg := [ManaSymbol(Green), ManaSymbol(Green)];
    assert RemoveFirst(gg, ManaSymbol(Green)) == [ManaSymbol(Green)];
    assert [ManaSymbol(Red), ManaSymbol(Green)][1..] == [ManaSymbol(Green)];
    assert [ManaSymbol(Green)][1..] == [];
    assert PoolRemoveAll([ManaSymbol(Green)], []) == (true, [ManaSymbol(Green)]);
    assert PoolRemoveAll(gg, [ManaSymbol(Green)]) == (true, [ManaSymbol(Green)]);
  }
}
