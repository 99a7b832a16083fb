/** The twelve steps and phases of a turn and their static properties. */
module Phases {
  datatype PhaseType =
    | Untap | Upkeep | Draw | Main1
    | CombatStart | CombatAttackers | CombatBlockers | CombatDamage | CombatEnd
    | Main2 | End | Cleanup

  const StartingPhase: PhaseType := Untap
  const FinalPhase: PhaseType := Cleanup

  /** `Enum.GetValues(typeof(PhaseType))`, in declaration order. */
  const PhaseValues: seq<PhaseType> :=
    [Untap, Upkeep, Draw, Main1, CombatStart, CombatAttackers, CombatBlockers,
     CombatDamage, CombatEnd, Main2, End, Cleanup]

  /** The underlying enum value: the position in declaration order. */
  function Ordinal(p: PhaseType): (r: nat)
    ensures r < |PhaseValues| && PhaseValues[r] == p
  {
    match p
    case Untap => 0
    case Upkeep => 1
    case Draw => 2
    case Main1 => 3
    case CombatStart => 4
    case CombatAttackers => 5
    case CombatBlockers => 6
    case CombatDamage => 7
    case CombatEnd => 8
    case Main2 => 9
    case End => 10
    case Cleanup => 11
  }

  /** Phases compare as their enum values do. */
  predicate Later(p: PhaseType, q: PhaseType)
  {
    Ordinal(p) > Ordinal(q)
  }

  /**
   * `Extensions.Next`: the value after `p` in `Enum.GetValues`, wrapping
   * from the last value to the first.
   */
  function Next(p: PhaseType): (r: PhaseType)
    ensures Ordinal(p) < |PhaseValues| - 1 ==> Ordinal(r) == Ordinal(p) + 1
    ensures Ordinal(p) == |PhaseValues| - 1 ==> r == PhaseValues[0]
  {
    var j := Ordinal(p) + 1;
    if j == |PhaseValues| then PhaseValues[0] else PhaseValues[j]
  }

  /** `Next` applied `n` times. */
  function Advance(p: PhaseType, n: nat): PhaseType
    decreases n
  {
    if n == 0 then p else Advance(Next(p), n - 1)
  }

  lemma {:induction false} AdvanceOrdinal(p: PhaseType, n: nat)
    requires Ordinal(p) + n <= |PhaseValues|
    ensures n < |PhaseValues| - Ordinal(p) ==> Ordinal(Advance(p, n)) == Ordinal(p) + n
    ensures n == |PhaseValues| - Ordinal(p) ==> Advance(p, n) == Untap
    decreases n
  {
    if n > 0 {
      AdvanceOrdinal(Next(p), n - 1);
    }
  }

  /** Twelve `Next` steps from any phase return to that phase. */
  lemma {:induction false} NextCycles(p: PhaseType)
    ensures Advance(p, |PhaseValues|) == p
    ensures forall k :: 0 < k < |PhaseValues| ==> Advance(p, k) != p
  {
    var o := Ordinal(p);
    AdvanceOrdinal(p, |PhaseValues| - o);
    AdvanceSplit(p, |PhaseValues| - o, o);
    AdvanceOrdinal(Untap, o);
    forall k | 0 < k < |PhaseValues| ensures Advance(p, k) != p {
      if k < |PhaseValues| - o {
        AdvanceOrdinal(p, k);
      } else {
        AdvanceOrdinal(p, |PhaseValues| - o);
        AdvanceSplit(p, |PhaseValues| - o, k - (|PhaseValues| - o));
        AdvanceOrdinal(Untap, k - (|PhaseValues| - o));
      }
    }
  }

  lemma {:induction false} AdvanceSplit(p: PhaseType, m: nat, n: nat)
    ensures Advance(p, m + n) == Advance(Advance(p, m), n)
    decreases m
  {
    if m > 0 {
      AdvanceSplit(Next(p), m - 1, n);
    }
  }

  /** Sorcery-speed actions are allowed in the two main phases only. */
  function SorceryPhase(p: PhaseType): (r: bool)
    ensures r <==> (p == Main1 || p == Main2)
  {
    match p
    case Main1 => true
    case Main2 => true
    case _ => false
  }

  /** Every step gives priority except the untap and cleanup steps. */
  function GivesPriority(p: PhaseType): (r: bool)
    ensures !r <==> (p == Untap || p == Cleanup)
  {
    match p
    case Untap => false
    case Cleanup => false
    case _ => true
  }
}
