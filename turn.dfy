/**
 * `MTG.Turn`: the turn counter, the active player, the player with
 * priority and the current phase, advanced in place by the priority loop.
 */
module Turns {
  import opened Phases

  /** `IncPriority` on the index: step, wrapping to 0 at `playerCount`; true iff it wrapped. */
  function IncPrioritySpec(index: int, playerCount: int): (r: (bool, int))
    ensures r.0 <==> index + 1 >= playerCount
    ensures r.0 ==> r.1 == 0
    ensures !r.0 ==> r.1 == index + 1
    ensures 0 <= index < playerCount ==> 0 <= r.1 < playerCount
  {
    if index + 1 >= playerCount then (true, 0) else (false, index + 1)
  }

  /** `IncPriority` applied `k` times. */
  function PriorityAfter(index: int, playerCount: int, k: nat): int
    decreases k
  {
    if k == 0 then index else PriorityAfter(IncPrioritySpec(index, playerCount).1, playerCount, k - 1)
  }

  /** From index `i`, `k` steps without wrapping reach `i + k`. */
  lemma {:induction false} PriorityAfterClimbs(i: int, n: int, k: nat)
    requires 0 <= i && i + k < n
    ensures PriorityAfter(i, n, k) == i + k
    decreases k
  {
    if k > 0 {
      PriorityAfterClimbs(i + 1, n, k - 1);
    }
  }

  /** Priority goes round the table: `playerCount` steps come back to the same player. */
  lemma PriorityCycles(i: int, n: int)
    requires 0 <= i < n
    ensures PriorityAfter(i, n, n) == i
    ensures forall k :: 0 < k < n - i ==> PriorityAfter(i, n, k) == i + k
  {
    PriorityAfterClimbs(i, n, n - 1 - i);
    assert PriorityAfter(i, n, n - i) == 0 by {
      PriorityAfterSplit(i, n, n - 1 - i, 1);
    }
    PriorityAfterSplit(i, n, n - i, i);
    PriorityAfterClimbs(0, n, i);
    forall k | 0 < k < n - i
      ensures PriorityAfter(i, n, k) == i + k
    {
      PriorityAfterClimbs(i, n, k);
    }
  }

  lemma {:induction false} PriorityAfterSplit(i: int, n: int, a: nat, b: nat)
    ensures PriorityAfter(i, n, a + b) == PriorityAfter(PriorityAfter(i, n, a), n, b)
    decreases a
  {
    if a > 0 {
      PriorityAfterSplit(IncPrioritySpec(i, n).1, n, a - 1, b);
    }
  }

  /** `IncPhase`: Cleanup goes back to Untap and reports the wrap; other phases step once. */
  function IncPhaseSpec(p: PhaseType): (r: (bool, PhaseType))
    ensures r.0 <==> p == FinalPhase
    ensures r.0 ==> r.1 == StartingPhase
    ensures !r.0 ==> Ordinal(r.1) == Ordinal(p) + 1
  {
    if p == FinalPhase then (true, StartingPhase) else (false, Next(p))
  }

  /** Both branches of `IncPhase` agree with `Next`, which wraps by itself. */
  lemma IncPhaseIsNext(p: PhaseType)
    ensures IncPhaseSpec(p).1 == Next(p)
  {
  }

  class Turn {
    var turnCount: int
    var playerTurnIndex: int
    var playerPriorityIndex: int
    var phase: PhaseType

    /** A turn in the state `Init` leaves it in. */
    constructor ()
      ensures turnCount == 0 && playerTurnIndex == 0 && playerPriorityIndex == 0 && phase == StartingPhase
    {
      turnCount := 0;
      playerTurnIndex := 0;
      playerPriorityIndex := 0;
      phase := StartingPhase;
    }

    /** `Init`: turn 0, player 0 active and with priority, untap step. */
    method Init()
      modifies this
      ensures turnCount == 0 && playerTurnIndex == 0 && playerPriorityIndex == 0 && phase == Untap
    {
      turnCount := 0;
      playerTurnIndex := 0;
      playerPriorityIndex := 0;
      phase := StartingPhase;
    }

    /** `ResetPriority`: priority goes back to the active player. */
    method ResetPriority()
      modifies this
      ensures playerPriorityIndex == playerTurnIndex
      ensures playerTurnIndex == old(playerTurnIndex) && turnCount == old(turnCount) && phase == old(phase)
    {
      playerPriorityIndex := playerTurnIndex;
    }

    /** `IncTurn`: the turn count always grows; the active player steps and wraps. */
    method IncTurn(playerCount: int) returns (wrapped: bool)
      modifies this
      ensures turnCount == old(turnCount) + 1
      ensures (wrapped, playerTurnIndex) == IncPrioritySpec(old(playerTurnIndex), playerCount)
      ensures playerPriorityIndex == old(playerPriorityIndex) && phase == old(phase)
    {
      playerTurnIndex := playerTurnIndex + 1;
      turnCount := turnCount + 1;
      if playerTurnIndex >= playerCount {
        playerTurnIndex := 0;
        return true;
      }
      return false;
    }

    /** `IncPhase`: advances the phase without touching the turn count. */
    method IncPhase() returns (wrapped: bool)
      modifies this
      ensures (wrapped, phase) == IncPhaseSpec(old(phase))
      ensures turnCount == old(turnCount) && playerTurnIndex == old(playerTurnIndex)
      ensures playerPriorityIndex == old(playerPriorityIndex)
    {
      if phase == FinalPhase {
        phase := StartingPhase;
        return true;
      } else {
        phase := Next(phase);
        return false;
      }
    }

    /** `IncPriority`: the next player gets priority, wrapping at `playerCount`. */
    method IncPriority(playerCount: int) returns (wrapped: bool)
      modifies this
      ensures (wrapped, playerPriorityIndex) == IncPrioritySpec(old(playerPriorityIndex), playerCount)
      ensures turnCount == old(turnCount) && playerTurnIndex == old(playerTurnIndex) && phase == old(phase)
    {
      playerPriorityIndex := playerPriorityIndex + 1;
      if playerPriorityIndex >= playerCount {
        playerPriorityIndex := 0;
        return true;
      }
      return false;
    }
  }
}
