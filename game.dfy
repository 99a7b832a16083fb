/**
 * The game object `MTG`, as far as events see it: the state they change
 * and the choice answers the players give (the turn and the continuous
 * effects are in `Controllers`). Each state change
 * the events make is one method here, proved to do what its step function
 * in `GameState` says.
 */
module Games {
  import opened Wrappers
  import opened Oids
  import opened Lists
  import opened Mana
  import opened Zones
  import opened Objects
  import opened Choices
  import opened Targets
  import opened EventTypes
  import opened GameState

  /**
   * The loops of the `MTG` constructor: for each library, each card made an
   * object under a fresh identifier and added at the front of that
   * player's library.
   */
  method LoadAll(s: State, libs: seq<seq<BaseCardAttributes>>) returns (t: State)
    requires forall k :: 0 <= k < |libs| ==> LibraryZone(k) in s.zones
    ensures t == LoadLibraries(s, libs)
  {
    t := s;
    var i := 0;
    while i < |libs|
      invariant 0 <= i <= |libs|
      invariant t == LoadLibraries(s, libs[..i])
    {
      t := LoadLibrary(t, i, libs[i]);
      assert libs[..i + 1][..i] == libs[..i];
      i := i + 1;
    }
    assert libs[..i] == libs;
  }

  /** The inner loop of the `MTG` constructor: the cards of library `i`, one at a time. */
  method LoadLibrary(s: State, i: nat, cards: seq<BaseCardAttributes>) returns (t: State)
    requires LibraryZone(i) in s.zones
    ensures t == LoadCards(s, i, cards)
  {
    t := s;
    LoadNothing(s, i);
    var j := 0;
    while j < |cards|
      invariant 0 <= j <= |cards|
      invariant t == LoadCards(s, i, cards[..j])
    {
      LoadCardsSnoc(s, i, cards[..j], cards[j]);
      var o := Oid(t.nextOid);
      t := t.(objects := t.objects[o := NewObject(cards[j], [], [])],
              zones := t.zones[LibraryZone(i) := [o] + t.zones[LibraryZone(i)]],
              nextOid := t.nextOid + 1);
      assert cards[..j + 1] == cards[..j] + [cards[j]];
      j := j + 1;
    }
    assert cards[..j] == cards;
  }

  /** The part of `MTG` that events read and change: objects, zones, players, pending triggered abilities, targets. */
  class Game {
    var objects: map<Oid, MtgObject>
    var zones: map<ZoneId, seq<Oid>>
    var players: seq<PlayerState>
    var pending: seq<TriggerEntry>
    var targets: map<TargetId, TargetState>
    /** The next GUID `new OID()` hands out. */
    var nextOid: nat
    /** The targets' fixed parts, by identifier. */
    const targetSpecs: map<TargetId, TargetSpec>
    /** The answers the players give to target choices, in order. */
    var targetAnswers: seq<Answer<PlayerOrOid>>
    /** The answers the players give to mana payment choices, in order. */
    var manaAnswers: seq<ManaAnswer>
    /** `TriggeredAbilities(e)` filtered by `DoesTrigger`: the entries an event sets off. */
    const triggers: Event -> seq<TriggerEntry>

    /** The part of the game that events read and change. */
    function Snapshot(): State
      reads this`objects, this`zones, this`players, this`pending, this`targets, this`nextOid
    {
      State(objects, zones, players, pending, targets, nextOid)
    }

    /**
     * `MTG(libraries)`: one player per library, and every card of a
     * library made an object and added at the front of that library, with
     * the import as intended (`ImportLibraries`); `NewGameFacts` says what
     * that state is.
     */
    constructor (libraries: seq<seq<BaseCardAttributes>>, triggers: Event -> seq<TriggerEntry>,
                 targetSpecs: map<TargetId, TargetSpec>,
                 targetAnswers: seq<Answer<PlayerOrOid>>, manaAnswers: seq<ManaAnswer>)
      ensures Snapshot() == NewGameState(libraries, map t | t in targetSpecs :: Undeclared)
      ensures this.triggers == triggers && this.targetSpecs == targetSpecs
      ensures this.targetAnswers == targetAnswers && this.manaAnswers == manaAnswers
    {
      var init := InitialState(|libraries|, map t | t in targetSpecs :: Undeclared);
      assert forall k :: 0 <= k < |libraries| ==> IsZoneOf(LibraryZone(k), |libraries|);
      var loaded := LoadAll(init, ImportLibraries(libraries));
      objects := loaded.objects;
      zones := loaded.zones;
      players := loaded.players;
      pending := loaded.pending;
      targets := loaded.targets;
      nextOid := loaded.nextOid;
      this.targetSpecs := targetSpecs;
      this.triggers := triggers;
      this.targetAnswers := targetAnswers;
      this.manaAnswers := manaAnswers;
    }

    // --------------------------------------------------------------------
    // The state changes events make
    // --------------------------------------------------------------------

    /** Sets or clears the tapped flag of an object. */
    method SetTapped(o: Oid, tapped: bool) returns (r: Result<()>)
      modifies this`objects
      ensures (r, Snapshot()) == TapStep(old(Snapshot()), o, tapped)
    {
      if o !in objects {
        return Err(KeyNotFoundException);
      }
      var obj := objects[o];
      objects := objects[o := obj.(status := obj.status.(tapped := tapped))];
      return Ok(());
    }

    /** `MTG.MoveZone`: `Remove` from the old zone, then `Add` at the front of the new one. */
    method MoveObject(o: Oid, a: ZoneId, b: ZoneId) returns (r: Result<()>)
      modifies this`zones
      ensures (r, Snapshot()) == MoveStep(old(Snapshot()), a, b, o)
    {
      if a !in zones || b !in zones {
        return Err(KeyNotFoundException);
      }
      var removed := ZoneRemove(zones[a], o);
      if removed.Err? {
        return Err(removed.fault);
      }
      zones := zones[a := removed.value];
      var added := ZoneAdd(zones[b], o, 0);
      if added.Err? {
        return Err(added.fault);
      }
      zones := zones[b := added.value];
      return Ok(());
    }

    /** `manaPool.AddMana` of one player's pool. */
    method AddMana(p: int, m: ManaSymbol) returns (r: Result<()>)
      modifies this`players
      ensures (r, Snapshot()) == AddManaStep(old(Snapshot()), p, m)
    {
      if !(0 <= p < |players|) {
        return Err(ArgumentOutOfRangeException);
      }
      var added := PoolAdd(players[p].pool, m);
      if added.Err? {
        return Err(added.fault);
      }
      players := players[p := players[p].(pool := added.value)];
      return Ok(());
    }

    /** `manaPool.RemoveMana` of one player's pool: whether the symbol was there. */
    method RemoveMana(p: int, m: ManaSymbol) returns (r: Result<bool>)
      modifies this`players
      ensures (r, Snapshot()) == RemoveManaStep(old(Snapshot()), p, m)
    {
      if !(0 <= p < |players|) {
        return Err(ArgumentOutOfRangeException);
      }
      var (found, rest) := PoolRemove(players[p].pool, m);
      players := players[p := players[p].(pool := rest)];
      return Ok(found);
    }

    /** `Player.ChangeLife`. */
    method ChangeLife(p: int, delta: int) returns (r: Result<()>)
      modifies this`players
      ensures (r, Snapshot()) == LifeStep(old(Snapshot()), p, delta)
    {
      if !(0 <= p < |players|) {
        return Err(ArgumentOutOfRangeException);
      }
      players := players[p := players[p].(life := players[p].life + delta)];
      return Ok(());
    }

    /** `PendingTriggeredAbilities.Add`, refused for an entry already pending. */
    method PushPending(e: TriggerEntry) returns (r: Result<()>)
      modifies this`pending
      ensures (r, Snapshot()) == PushPendingStep(old(Snapshot()), e)
    {
      if e in pending {
        return Err(InvalidOperationException);
      }
      pending := pending + [e];
      return Ok(());
    }

    /** `PendingTriggeredAbilities.Remove`. */
    method RemovePending(e: TriggerEntry)
      modifies this`pending
      ensures Snapshot() == RemovePendingStep(old(Snapshot()), e)
    {
      pending := RemoveFirst(pending, e);
    }

    /** `CreateObject` then `theStack.Push`: a fresh identifier on top of the stack. */
    method CreateOnStack(obj: MtgObject) returns (r: Result<Oid>)
      modifies this`objects, this`zones, this`nextOid
      ensures (r, Snapshot()) == CreateStep(old(Snapshot()), obj)
    {
      if StackZone !in zones {
        return Err(KeyNotFoundException);
      }
      var o := Oid(nextOid);
      objects := objects[o := obj];
      zones := zones[StackZone := ZonePush(zones[StackZone], o)];
      nextOid := nextOid + 1;
      return Ok(o);
    }

    /** `DeleteObject`: the object, and its identifier in whatever zone lists it. */
    method DeleteObject(o: Oid)
      modifies this`objects, this`zones
      ensures Snapshot() == DeleteStep(old(Snapshot()), o)
    {
      zones := Forget(zones, o);
      objects := objects - {o};
    }

    /** The damage marked on an object set back to zero; a missing object faults. */
    method ClearDamage(o: Oid) returns (r: Result<()>)
      modifies this`objects
      ensures o !in old(objects) ==> r == Err(KeyNotFoundException) && objects == old(objects)
      ensures o in old(objects) ==>
                && r == Ok(())
                && objects == old(objects)[o := old(objects)[o].(status := old(objects)[o].status.(damage := 0))]
    {
      if o !in objects {
        return Err(KeyNotFoundException);
      }
      var obj := objects[o];
      objects := objects[o := obj.(status := obj.status.(damage := 0))];
      return Ok(());
    }

    /** A target's declaration state replaced. */
    method SetTarget(tid: TargetId, st: TargetState) returns (r: Result<()>)
      modifies this`targets
      ensures (r, Snapshot()) == TargetStep(old(Snapshot()), tid, st)
    {
      if tid !in targets {
        return Err(KeyNotFoundException);
      }
      targets := targets[tid := st];
      return Ok(());
    }

    /**
     * `target.Declare(source)` for the target `tid`: the next answers are
     * taken until one is accepted or cancelled; a cancel leaves the target
     * as it was.
     */
    method DeclareTarget(tid: TargetId) returns (r: Result<bool>, st: TargetState)
      modifies this`targets, this`targetAnswers
      ensures r.Err? <==> tid !in old(targets) || tid !in targetSpecs
      ensures r.Err? ==> r.fault == KeyNotFoundException && Snapshot() == old(Snapshot())
                         && targetAnswers == old(targetAnswers)
      ensures r.Ok? ==> var d := DeclareSpec(targetSpecs[tid], old(targets)[tid], old(targetAnswers));
                        && r.value == d.0 && st == d.1 && targetAnswers == d.2
                        && Snapshot() == (if d.0 then TargetStep(old(Snapshot()), tid, st).1 else old(Snapshot()))
    {
      if tid !in targets || tid !in targetSpecs {
        return Err(KeyNotFoundException), Undeclared;
      }
      var d := DeclareSpec(targetSpecs[tid], targets[tid], targetAnswers);
      targetAnswers := d.2;
      if d.0 {
        targets := targets[tid := d.1];
      }
      return Ok(d.0), d.1;
    }

    /** The player's next answer to a mana payment choice; none left counts as cancelling. */
    method NextManaAnswer() returns (a: ManaAnswer)
      modifies this`manaAnswers
      ensures old(manaAnswers) == [] ==> a == CancelPayment && manaAnswers == []
      ensures old(manaAnswers) != [] ==> a == old(manaAnswers)[0] && manaAnswers == old(manaAnswers)[1..]
    {
      if manaAnswers == [] {
        return CancelPayment;
      }
      a := manaAnswers[0];
      manaAnswers := manaAnswers[1..];
    }
  }
}
