/**
 * The priority loop of `MTG` (`PassPriority`, `UpdateAllModifications`)
 * and what a phase does when it starts and ends (`Phase.StartCurrentPhase`,
 * `Phase.EndCurrentPhase`).
 *
 * `Controller` holds the game the events change, the `Turn`, the count of
 * consecutive passes without an action, and the continuous effects with
 * the modifications collected from them. Resolving the top of the stack
 * (`Stack.Resolve`) is not part of this model: `PassPriority` reports that
 * it is due and leaves the game as it is.
 */
module Controllers {
  import opened Wrappers
  import opened Oids
  import opened Zones
  import opened Objects
  import opened Mana
  import opened Choices
  import opened Targets
  import opened Phases
  import opened Turns
  import opened EventTypes
  import opened GameState
  import opened Games
  import opened EventTree
  import opened Engine
  import opened Modifications
  import opened ContinuousEffects

  // ----------------------------------------------------------------------
  // Passing priority
  // ----------------------------------------------------------------------

  /** What `PassPriority` reads and changes: the pass count and the turn. */
  datatype PriorityView = PriorityView(passCount: int, turnCount: int, active: int, priority: int, phase: PhaseType)

  /** Which branch a pass takes. */
  datatype PassOutcome = PassedOn | StackResolved | PhaseEnded

  /**
   * `PassPriority(actionsTaken)` with `n` players: an action restarts the
   * count of passes; until `n` passes in a row, priority only moves on;
   * then a non-empty stack resolves and priority goes back to the active
   * player, and an empty stack ends the phase (and the turn after Cleanup),
   * keeping the pass count and the priority index.
   */
  function PassSpec(v: PriorityView, actionsTaken: bool, n: int, stackEmpty: bool): (r: (PassOutcome, PriorityView))
    ensures var c := if actionsTaken then 0 else v.passCount + 1;
            && (r.0 == PassedOn <==> c < n)
            && (r.0 == StackResolved <==> c >= n && !stackEmpty)
            && (r.0 == PhaseEnded <==> c >= n && stackEmpty)
            && (r.0 == PassedOn ==> r.1 == v.(passCount := c, priority := IncPrioritySpec(v.priority, n).1))
            && (r.0 == StackResolved ==> r.1 == v.(passCount := 0, priority := v.active))
            && (r.0 == PhaseEnded ==>
                  && r.1.passCount == c && r.1.priority == v.priority && r.1.phase == Next(v.phase)
                  && (v.phase == Cleanup ==> r.1.turnCount == v.turnCount + 1 && r.1.active == IncPrioritySpec(v.active, n).1)
                  && (v.phase != Cleanup ==> r.1.turnCount == v.turnCount && r.1.active == v.active))
  {
    var c := if actionsTaken then 0 else v.passCount + 1;
    if c < n then
      (PassedOn, v.(passCount := c, priority := IncPrioritySpec(v.priority, n).1))
    else if !stackEmpty then
      (StackResolved, v.(passCount := 0, priority := v.active))
    else
      var (wrapped, phase) := IncPhaseSpec(v.phase);
      IncPhaseIsNext(v.phase);
      if wrapped then
        (PhaseEnded, v.(passCount := c, phase := phase, turnCount := v.turnCount + 1,
                        active := IncPrioritySpec(v.active, n).1))
      else
        (PhaseEnded, v.(passCount := c, phase := phase))
  }

  /** `k` passes in a row, none of them after an action, and the outcome of each. */
  function Quiet(v: PriorityView, n: int, stackEmpty: bool, k: nat): (PassOutcome, seq<PassOutcome>, PriorityView)
    decreases k
  {
    if k == 0 then (PassedOn, [], v)
    else
      var (_, os, w) := Quiet(v, n, stackEmpty, k - 1);
      var (o, u) := PassSpec(w, false, n, stackEmpty);
      (o, os + [o], u)
  }

  /**
   * While the passes in a row stay under the number of players, each one
   * only hands priority to the next player, round the table.
   */
  lemma {:induction false} QuietPassesOn(v: PriorityView, n: int, stackEmpty: bool, k: nat)
    requires 0 <= v.passCount && v.passCount + k < n
    ensures var (_, os, w) := Quiet(v, n, stackEmpty, k);
            && |os| == k && (forall i :: 0 <= i < k ==> os[i] == PassedOn)
            && w == v.(passCount := v.passCount + k, priority := PriorityAfter(v.priority, n, k))
    decreases k
  {
    if k > 0 {
      QuietPassesOn(v, n, stackEmpty, k - 1);
      PriorityAfterSplit(v.priority, n, k - 1, 1);
    }
  }

  /**
   * Priority ends: from a count of `c` passes in a row, exactly `n - c`
   * more passes without an action are needed; all but the last only move
   * priority, and the last resolves the stack or, when it is empty, ends
   * the phase.
   */
  lemma QuietPassesEnd(v: PriorityView, n: int, stackEmpty: bool)
    requires 0 <= v.passCount < n
    ensures var (last, os, w) := Quiet(v, n, stackEmpty, n - v.passCount);
            && |os| == n - v.passCount
            && (forall i :: 0 <= i < |os| - 1 ==> os[i] == PassedOn)
            && last == os[|os| - 1]
            && (stackEmpty ==> last == PhaseEnded && w.phase == Next(v.phase))
            && (!stackEmpty ==> last == StackResolved && w.passCount == 0 && w.priority == w.active)
  {
    var m := n - v.passCount;
    QuietPassesOn(v, n, stackEmpty, m - 1);
  }

  /**
   * The pass count is not reset when a phase ends: after a phase has
   * ended, a single pass without an action ends the next phase as well
   * while the stack stays empty.
   */
  lemma OnePassEndsNextPhase(v: PriorityView, n: int)
    requires PassSpec(v, false, n, true).0 == PhaseEnded
    ensures var w := PassSpec(v, false, n, true).1;
            PassSpec(w, false, n, true).0 == PhaseEnded && PassSpec(w, false, n, true).1.phase == Next(Next(v.phase))
  {
  }

  // ----------------------------------------------------------------------
  // Starting a phase
  // ----------------------------------------------------------------------

  /**
   * The untap step's events: an `UntapEvent` for each object on the
   * battlefield that the active player controls, in battlefield order;
   * reading an object that is not there faults.
   */
  function UntapEvents(objects: map<Oid, MtgObject>, bf: seq<Oid>, active: int): (r: Result<seq<Event>>)
    ensures r.Ok? <==> forall i :: 0 <= i < |bf| ==> bf[i] in objects
    ensures r.Err? ==> r.fault == KeyNotFoundException
    ensures r.Ok? ==> forall e :: e in r.value ==> e.UntapEvent? && e.source in bf && objects[e.source].attr.controller == active
    ensures r.Ok? ==> forall i :: 0 <= i < |bf| && objects[bf[i]].attr.controller == active ==> UntapEvent(bf[i]) in r.value
    decreases |bf|
  {
    if bf == [] then Ok([])
    else
      var init, o := bf[..|bf| - 1], bf[|bf| - 1];
      match UntapEvents(objects, init, active)
      case Err(f) => Err(f)
      case Ok(es) =>
        if o !in objects then Err(KeyNotFoundException)
        else if objects[o].attr.controller == active then Ok(es + [UntapEvent(o)])
        else Ok(es)
  }

  /** Untapping leaves the zones, the set of objects and every object's attributes as they were. */
  lemma UntapKeeps(s: State, c: Node, trig: Event -> seq<TriggerEntry>)
    requires Runs(s, c, trig) && c.event.UntapEvent?
    ensures Eff(s, c).zones == s.zones && SameSeats(Eff(s, c).objects, s.objects)
  {
    if c.ok {
      PrimitiveShape(s, c, trig);
      PushesEff(OwnEffect(s, c), c.attempts, trig);
    } else {
      assert c.attempts[..|c.attempts|] == c.attempts;
      assert CoreShaped(s, c, c.attempts);
    }
  }

  /** The same objects, each with the same attributes (its status may differ). */
  predicate SameSeats(a: map<Oid, MtgObject>, b: map<Oid, MtgObject>)
  {
    a.Keys == b.Keys && forall o :: o in b ==> a[o].attr == b[o].attr
  }

  /** What the untap step does to `s`, given the nodes it recorded. */
  ghost predicate UntapStarted(s: State, active: int, r: Result<seq<Node>>, t: State, trig: Event -> seq<TriggerEntry>)
  {
    && (BattlefieldZone !in s.zones ==> r.Err?)
    && (BattlefieldZone in s.zones && UntapEvents(s.objects, s.zones[BattlefieldZone], active).Err? ==> r.Err?)
    && (r.Ok? ==>
          && BattlefieldZone in s.zones
          && UntapEvents(s.objects, s.zones[BattlefieldZone], active) == Ok(Events(r.value))
          && RunsAll(s, r.value, trig) && t == EffAll(s, r.value))
  }

  /**
   * The cleanup step's effect on the objects: every object on the
   * battlefield has its marked damage set to zero.
   */
  function DamageCleared(objects: map<Oid, MtgObject>, bf: seq<Oid>): (r: map<Oid, MtgObject>)
    ensures r.Keys == objects.Keys
    ensures forall o :: o in objects && o in bf ==> r[o].status.damage == 0
    ensures forall o :: o in objects && o in bf ==> r[o].(status := r[o].status.(damage := objects[o].status.damage)) == objects[o]
    ensures forall o :: o in objects && o !in bf ==> r[o] == objects[o]
  {
    map o | o in objects :: if o in bf then Undamaged(objects[o]) else objects[o]
  }

  function Undamaged(obj: MtgObject): MtgObject
  {
    obj.(status := obj.status.(damage := 0))
  }

  /** Clearing one more battlefield entry is one more update of the map. */
  lemma DamageClearedSnoc(objects: map<Oid, MtgObject>, bf: seq<Oid>, o: Oid)
    requires o in objects
    ensures DamageCleared(objects, bf + [o]) == DamageCleared(objects, bf)[o := Undamaged(objects[o])]
  {
    var a, b := DamageCleared(objects, bf + [o]), DamageCleared(objects, bf)[o := Undamaged(objects[o])];
    forall k | k in objects ensures a[k] == b[k] {
      if k != o && k in bf + [o] {
        assert k in bf;
      }
    }
  }

  /** What the cleanup step does to `s`, given the discard it recorded. */
  ghost predicate CleanupStarted(s: State, discards: seq<Oid>, r: Result<seq<Node>>, t: State, trig: Event -> seq<TriggerEntry>)
  {
    r.Ok? ==>
      && |r.value| == 1 && r.value[0].event == DiscardCardsAuto(discards) && Runs(s, r.value[0], trig)
      && var u := Eff(s, r.value[0]);
         BattlefieldZone in u.zones && t == u.(objects := DamageCleared(u.objects, u.zones[BattlefieldZone]))
  }

  /**
   * What starting `phase` does to `s`: the untap step, the draw of one
   * card for the active player, the cleanup step, or nothing.
   */
  ghost predicate PhaseStarted(s: State, phase: PhaseType, active: int, discards: seq<Oid>, r: Result<seq<Node>>, t: State,
                               trig: Event -> seq<TriggerEntry>)
  {
    match phase
    case Untap => UntapStarted(s, active, r, t, trig)
    case Draw => r.Ok? ==> |r.value| == 1 && Applied(s, DrawCardsAuto(active, 1), Ok(r.value[0]), t, trig)
    case Cleanup => CleanupStarted(s, discards, r, t, trig)
    case _ => r == Ok([]) && t == s
  }

  // ----------------------------------------------------------------------
  // Ending a phase and collecting modifications
  // ----------------------------------------------------------------------

  /** `EndCurrentPhase` on the players: every mana pool emptied. */
  function EmptiedPools(players: seq<PlayerState>): (r: seq<PlayerState>)
    ensures |r| == |players|
    ensures forall i :: 0 <= i < |r| ==> r[i].pool == [] && r[i].life == players[i].life && r[i].hasLost == players[i].hasLost
  {
    seq(|players|, i requires 0 <= i < |players| => players[i].(pool := []))
  }

  /** Emptying the pools a second time changes nothing. */
  lemma EmptiedPoolsIdempotent(players: seq<PlayerState>)
    ensures EmptiedPools(EmptiedPools(players)) == EmptiedPools(players)
  {
  }

  /** The modifications of each effect in turn, concatenated. */
  function Collected(effs: seq<ContinuousEffect>): seq<Modification>
    reads set e | e in effs
    decreases |effs|
  {
    if effs == [] then [] else Collected(effs[..|effs| - 1]) + effs[|effs| - 1].modifications
  }

  /** A modification is collected iff some effect holds it. */
  lemma {:induction false} CollectedHolds(effs: seq<ContinuousEffect>, m: Modification)
    ensures m in Collected(effs) <==> exists i :: 0 <= i < |effs| && m in effs[i].modifications
    decreases |effs|
  {
    if effs != [] {
      var init := effs[..|effs| - 1];
      CollectedHolds(init, m);
      if m in Collected(init) {
        var i :| 0 <= i < |init| && m in init[i].modifications;
        assert effs[i] == init[i];
      }
      if exists i :: 0 <= i < |effs| && m in effs[i].modifications {
        var i :| 0 <= i < |effs| && m in effs[i].modifications;
        if i < |init| {
          assert init[i] == effs[i];
        }
      }
    }
  }

  /** The number collected is the sum of the effects' counts. */
  function ModCount(effs: seq<ContinuousEffect>): nat
    reads set e | e in effs
    decreases |effs|
  {
    if effs == [] then 0 else ModCount(effs[..|effs| - 1]) + |effs[|effs| - 1].modifications|
  }

  lemma {:induction false} CollectedCount(effs: seq<ContinuousEffect>)
    ensures |Collected(effs)| == ModCount(effs)
    decreases |effs|
  {
    if effs != [] {
      CollectedCount(effs[..|effs| - 1]);
    }
  }

  // ----------------------------------------------------------------------
  // The controller
  // ----------------------------------------------------------------------

  class Controller {
    const game: Game
    const turn: Turn
    /** Passes in a row without an action. */
    var noActionPassCount: int
    var continuousEffects: seq<ContinuousEffect>
    var allModifications: seq<Modification>

    function View(): PriorityView
      reads this, turn
    {
      PriorityView(noActionPassCount, turn.turnCount, turn.playerTurnIndex, turn.playerPriorityIndex, turn.phase)
    }

    /** `MTG(libraries)` with a fresh turn, no passes counted and no effects. */
    constructor (libraries: seq<seq<BaseCardAttributes>>, triggers: Event -> seq<TriggerEntry>,
                 targetSpecs: map<TargetId, TargetSpec>,
                 targetAnswers: seq<Answer<PlayerOrOid>>, manaAnswers: seq<ManaAnswer>)
      ensures fresh(game) && fresh(turn)
      ensures game.Snapshot() == NewGameState(libraries, map t | t in targetSpecs :: Undeclared)
      ensures game.triggers == triggers && game.manaAnswers == manaAnswers && game.targetAnswers == targetAnswers
      ensures View() == PriorityView(0, 0, 0, 0, StartingPhase)
      ensures continuousEffects == [] && allModifications == []
    {
      game := new Game(libraries, triggers, targetSpecs, targetAnswers, manaAnswers);
      turn := new Turn();
      noActionPassCount := 0;
      continuousEffects := [];
      allModifications := [];
    }

    /**
     * `PassPriority(actionsTaken)`: the turn state moves as `PassSpec`
     * says; only the start of a new phase changes the game, as
     * `PhaseStarted` says for the new phase (`started` is what it
     * recorded), and `discards` are the cards chosen for the cleanup
     * discard.
     */
    method PassPriority(actionsTaken: bool, discards: seq<Oid>) returns (r: Result<PassOutcome>, ghost started: Result<seq<Node>>)
      modifies this, turn, game
      ensures View() == PassSpec(old(View()), actionsTaken, |old(game.players)|, StackEmpty(old(game.Snapshot()))).1
      ensures r.Ok? ==> r.value == PassSpec(old(View()), actionsTaken, |old(game.players)|, StackEmpty(old(game.Snapshot()))).0
      ensures r.Err? ==> PassSpec(old(View()), actionsTaken, |old(game.players)|, StackEmpty(old(game.Snapshot()))).0 == PhaseEnded
      ensures r != Ok(PhaseEnded) && r.Ok? ==> game.Snapshot() == old(game.Snapshot())
      ensures PassSpec(old(View()), actionsTaken, |old(game.players)|, StackEmpty(old(game.Snapshot()))).0 == PhaseEnded ==>
                && PhaseStarted(old(game.Snapshot()), View().phase, View().active, discards, started, game.Snapshot(), game.triggers)
                && (r.Err? <==> started.Err?) && (r.Err? ==> r.fault == started.fault)
      ensures continuousEffects == old(continuousEffects) && allModifications == old(allModifications)
    {
      if !actionsTaken {
        noActionPassCount := noActionPassCount + 1;
      } else {
        noActionPassCount := 0;
      }
      var n := |game.players|;
      started := Ok([]);
      if noActionPassCount < n {
        var _ := turn.IncPriority(n);
        return Ok(PassedOn), started;
      }
      if !StackEmpty(game.Snapshot()) {
        turn.ResetPriority();
        noActionPassCount := 0;
        return Ok(StackResolved), started;
      }
      var turnEnded := turn.IncPhase();
      IncPhaseIsNext(old(turn.phase));
      if turnEnded {
        var _ := turn.IncTurn(n);
      }
      var phaseStart := StartCurrentPhase(discards);
      started := phaseStart;
      if phaseStart.Err? {
        return Err(phaseStart.fault), started;
      }
      return Ok(PhaseEnded), started;
    }

    /**
     * `StartCurrentPhase`: the untap step untaps the active player's
     * permanents, the draw step draws the active player a card, the
     * cleanup step discards and clears damage, and the other phases do
     * nothing.
     */
    method StartCurrentPhase(discards: seq<Oid>) returns (r: Result<seq<Node>>)
      modifies game
      ensures PhaseStarted(old(game.Snapshot()), turn.phase, turn.playerTurnIndex, discards, r, game.Snapshot(), game.triggers)
    {
      match turn.phase
      case Untap =>
        r := StartUntap();
      case Draw =>
        var d := Apply(game, DrawCardsAuto(turn.playerTurnIndex, 1));
        if d.Err? {
          return Err(d.fault);
        }
        r := Ok([d.value]);
      case Cleanup =>
        r := StartCleanup(discards);
      case _ =>
        r := Ok([]);
    }

    /** The untap step: each battlefield object the active player controls is untapped, in order. */
    method StartUntap() returns (r: Result<seq<Node>>)
      modifies game
      ensures UntapStarted(old(game.Snapshot()), turn.playerTurnIndex, r, game.Snapshot(), game.triggers)
    {
      ghost var s := game.Snapshot();
      var active := turn.playerTurnIndex;
      if BattlefieldZone !in game.zones {
        return Err(KeyNotFoundException);
      }
      var bf := game.zones[BattlefieldZone];
      var kids: seq<Node> := [];
      var i := 0;
      while i < |bf|
        invariant 0 <= i <= |bf|
        invariant UntapEvents(s.objects, bf[..i], active) == Ok(Events(kids))
        invariant RunsAll(s, kids, game.triggers) && game.Snapshot() == EffAll(s, kids)
        invariant game.zones == s.zones && SameSeats(game.objects, s.objects)
      {
        var next := UntapNext(s, bf, active, i, kids);
        if next.Err? {
          return Err(next.fault);
        }
        kids := next.value;
        i := i + 1;
      }
      assert bf[..i] == bf;
      return Ok(kids);
    }

    /** The untap step at battlefield position `i`: untaps the object there if the active player controls it. */
    method UntapNext(ghost s: State, bf: seq<Oid>, active: int, i: nat, kids: seq<Node>) returns (r: Result<seq<Node>>)
      requires i < |bf|
      requires UntapEvents(s.objects, bf[..i], active) == Ok(Events(kids))
      requires RunsAll(s, kids, game.triggers) && game.Snapshot() == EffAll(s, kids)
      requires game.zones == s.zones && SameSeats(game.objects, s.objects)
      modifies game
      ensures r.Ok? ==> && UntapEvents(s.objects, bf[..i + 1], active) == Ok(Events(r.value))
                        && RunsAll(s, r.value, game.triggers) && game.Snapshot() == EffAll(s, r.value)
                        && game.zones == s.zones && SameSeats(game.objects, s.objects)
    {
      var o := bf[i];
      assert bf[..i + 1][..i] == bf[..i] && bf[..i + 1][i] == o;
      if o !in game.objects {
        return Err(KeyNotFoundException);
      }
      if game.objects[o].attr.controller != active {
        return Ok(kids);
      }
      var c := UntapChild(s, kids, o);
      if c.Err? {
        return Err(c.fault);
      }
      return Ok(kids + [c.value]);
    }

    /** One `UntapEvent` applied after the ones before it. */
    method UntapChild(ghost s: State, kids: seq<Node>, o: Oid) returns (r: Result<Node>)
      requires RunsAll(s, kids, game.triggers) && game.Snapshot() == EffAll(s, kids)
      modifies game
      ensures r.Ok? ==> && RunsAll(s, kids + [r.value], game.triggers) && game.Snapshot() == EffAll(s, kids + [r.value])
                        && Events(kids + [r.value]) == Events(kids) + [UntapEvent(o)]
                        && game.zones == old(game.zones) && SameSeats(game.objects, old(game.objects))
    {
      ghost var u := game.Snapshot();
      r := Apply(game, UntapEvent(o));
      if r.Ok? {
        RunsSnoc(s, kids, r.value, game.triggers);
        UntapKeeps(u, r.value, game.triggers);
      }
    }

    /** The cleanup step: the chosen cards discarded, then all marked damage on the battlefield removed. */
    method StartCleanup(discards: seq<Oid>) returns (r: Result<seq<Node>>)
      modifies game
      ensures CleanupStarted(old(game.Snapshot()), discards, r, game.Snapshot(), game.triggers)
    {
      ghost var s := game.Snapshot();
      var d := Apply(game, DiscardCardsAuto(discards));
      if d.Err? {
        return Err(d.fault);
      }
      var cleared := ClearBattlefieldDamage();
      if cleared.Err? {
        return Err(cleared.fault);
      }
      return Ok([d.value]);
    }

    /** All marked damage on the battlefield removed, permanent by permanent. */
    method ClearBattlefieldDamage() returns (r: Result<()>)
      modifies game
      ensures r.Ok? ==> && BattlefieldZone in old(game.zones)
                        && game.Snapshot() == old(game.Snapshot()).(objects := DamageCleared(old(game.objects), old(game.zones)[BattlefieldZone]))
      ensures BattlefieldZone !in old(game.zones) ==> r == Err(KeyNotFoundException)
    {
      if BattlefieldZone !in game.zones {
        return Err(KeyNotFoundException);
      }
      ghost var u := game.Snapshot();
      var bf := game.zones[BattlefieldZone];
      var i := 0;
      while i < |bf|
        invariant 0 <= i <= |bf|
        invariant game.Snapshot() == u.(objects := DamageCleared(u.objects, bf[..i]))
      {
        assert bf[..i + 1] == bf[..i] + [bf[i]];
        if bf[i] in u.objects {
          DamageClearedSnoc(u.objects, bf[..i], bf[i]);
        }
        var cleared := game.ClearDamage(bf[i]);
        if cleared.Err? {
          return Err(cleared.fault);
        }
        i := i + 1;
      }
      assert bf[..i] == bf;
      return Ok(());
    }

    /** `EndCurrentPhase`: every player's mana pool is emptied. */
    method EndCurrentPhase()
      modifies game`players
      ensures game.players == EmptiedPools(old(game.players))
    {
      var i := 0;
      while i < |game.players|
        invariant 0 <= i <= |game.players| == |old(game.players)|
        invariant forall j :: 0 <= j < i ==> game.players[j] == old(game.players)[j].(pool := [])
        invariant forall j :: i <= j < |game.players| ==> game.players[j] == old(game.players)[j]
      {
        game.players := game.players[i := game.players[i].(pool := [])];
        i := i + 1;
      }
    }

    /** `UpdateAllModifications`: the modifications of every continuous effect, in order. */
    method UpdateAllModifications()
      modifies this`allModifications
      ensures allModifications == Collected(continuousEffects)
    {
      var allMods: seq<Modification> := [];
      var i := 0;
      while i < |continuousEffects|
        invariant 0 <= i <= |continuousEffects|
        invariant allMods == Collected(continuousEffects[..i])
      {
        assert continuousEffects[..i + 1][..i] == continuousEffects[..i];
        allMods := allMods + continuousEffects[i].GetModifications();
        i := i + 1;
      }
      assert continuousEffects[..i] == continuousEffects;
      allModifications := allMods;
    }
  }

  /** The stack of `s` holds nothing. */
  predicate StackEmpty(s: State)
  {
    StackZone !in s.zones || s.zones[StackZone] == []
  }
}
