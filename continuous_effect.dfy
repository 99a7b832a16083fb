/**
 * Continuous effects: a list of modifications that lasts for a duration.
 * Each duration needs its own data, checked when the effect is made, and
 * decides from the current turn and phase whether the effect still applies.
 */
module ContinuousEffects {
  import opened Wrappers
  import opened Oids
  import opened Zones
  import opened Phases
  import opened Modifications

  datatype Duration =
    | EndOfTurn
    | ObjectInZone
    | Infinite
    | EndOfPhase
    | ObjectTapped
    | ObjectControlledByPlayer

  /** `DurationData`: every field may be missing. */
  datatype DurationData = DurationData(
    turn: Option<int>,
    player: Option<int>,
    oid: Option<Oid>,
    phase: Option<PhaseType>,
    zone: Option<ZoneId>)

  /** The data a default-constructed `DurationData` holds: nothing. */
  const NoData := DurationData(None, None, None, None, None)

  /** `IsDurationDataValid`: the fields each duration needs are present. */
  function IsDurationDataValid(duration: Duration, data: DurationData): (r: bool)
    ensures duration == Infinite ==> r
    ensures duration == EndOfTurn ==> (r <==> data.turn.Some?)
    ensures duration == EndOfPhase ==> (r <==> data.turn.Some? && data.phase.Some?)
    ensures duration == ObjectTapped ==> (r <==> data.oid.Some?)
    ensures duration == ObjectInZone ==> (r <==> data.oid.Some? && data.zone.Some?)
    ensures duration == ObjectControlledByPlayer ==> (r <==> data.oid.Some? && data.player.Some?)
  {
    match duration
    case EndOfTurn => data.turn.Some?
    case EndOfPhase => data.turn.Some? && data.phase.Some?
    case ObjectTapped => data.oid.Some?
    case ObjectInZone => data.oid.Some? && data.zone.Some?
    case ObjectControlledByPlayer => data.oid.Some? && data.player.Some?
    case Infinite => true
  }

  /** A lifted comparison `x > n` on a nullable integer: false when it is missing. */
  predicate GreaterThan(x: int, n: Option<int>)
  {
    n.Some? && x > n.value
  }

  /**
   * `IsActive` as written for an end-of-phase duration: the effect ends
   * once the turn is past its turn, and also whenever the current phase is
   * later than its phase, in any turn.
   */
  function EndOfPhaseActiveAsWritten(data: DurationData, turnCount: int, phase: PhaseType): (r: bool)
    ensures r ==> !GreaterThan(turnCount, data.turn)
    ensures data.phase.Some? && Later(phase, data.phase.value) ==> !r
  {
    if GreaterThan(turnCount, data.turn) then false
    else if data.phase.Some? && Later(phase, data.phase.value) then false
    else true
  }

  /** An end-of-phase effect for a later turn reads as over in an earlier turn's late phase. */
  lemma EndOfPhaseEndsEarly()
    ensures !EndOfPhaseActiveAsWritten(DurationData(Some(2), None, None, Some(Main1), None), 1, CombatStart)
    ensures EndOfPhaseActiveAsWritten(DurationData(Some(2), None, None, Some(Main1), None), 2, Untap)
  {
  }

  /**
   * The end-of-phase test as intended: the effect lasts through the given
   * phase of the given turn, so it is over in a later turn, or in the same
   * turn in a later phase.
   */
  function EndOfPhaseActive(data: DurationData, turnCount: int, phase: PhaseType): (r: bool)
    requires data.turn.Some? && data.phase.Some?
    ensures r <==> turnCount < data.turn.value
                   || (turnCount == data.turn.value && !Later(phase, data.phase.value))
  {
    if turnCount > data.turn.value then false
    else if turnCount == data.turn.value && Later(phase, data.phase.value) then false
    else true
  }

  /** Game time: turn, then phase within the turn. */
  predicate NotBefore(t1: int, p1: PhaseType, t2: int, p2: PhaseType)
  {
    t1 > t2 || (t1 == t2 && Ordinal(p1) >= Ordinal(p2))
  }

  /** Once over, an intended end-of-phase effect stays over at every later time. */
  lemma EndOfPhaseStaysOver(data: DurationData, t1: int, p1: PhaseType, t2: int, p2: PhaseType)
    requires data.turn.Some? && data.phase.Some?
    requires NotBefore(t2, p2, t1, p1) && !EndOfPhaseActive(data, t1, p1)
    ensures !EndOfPhaseActive(data, t2, p2)
  {
  }

  /**
   * `IsActive`: an end-of-turn effect lasts while the turn count has not
   * passed its turn, an end-of-phase one through its phase of its turn
   * (the intended test `EndOfPhaseActive`, not the one as written), an
   * infinite one always, and the object-bound ones are not implemented.
   */
  function IsActive(duration: Duration, data: DurationData, turnCount: int, phase: PhaseType): (r: Result<bool>)
    requires IsDurationDataValid(duration, data)
    ensures r.Err? <==> duration in {ObjectInZone, ObjectTapped, ObjectControlledByPlayer}
    ensures r.Err? ==> r.fault == NotImplementedException
    ensures duration == Infinite ==> r == Ok(true)
    ensures duration == EndOfTurn ==> r == Ok(turnCount <= data.turn.value)
    ensures duration == EndOfPhase ==> r == Ok(turnCount < data.turn.value
                                              || (turnCount == data.turn.value && !Later(phase, data.phase.value)))
  {
    match duration
    case EndOfTurn => Ok(!GreaterThan(turnCount, data.turn))
    case EndOfPhase => Ok(EndOfPhaseActive(data, turnCount, phase))
    case ObjectInZone => Err(NotImplementedException)
    case ObjectTapped => Err(NotImplementedException)
    case Infinite => Ok(true)
    case ObjectControlledByPlayer => Err(NotImplementedException)
  }

  /** Once over, an end-of-turn or end-of-phase effect stays over. */
  lemma ActiveIsMonotone(duration: Duration, data: DurationData, t1: int, p1: PhaseType, t2: int, p2: PhaseType)
    requires IsDurationDataValid(duration, data) && NotBefore(t2, p2, t1, p1)
    requires IsActive(duration, data, t1, p1) == Ok(false)
    ensures IsActive(duration, data, t2, p2) == Ok(false)
  {
    if duration == EndOfPhase {
      EndOfPhaseStaysOver(data, t1, p1, t2, p2);
    }
  }

  /** A continuous effect: its source, duration and the lists it collects. */
  class ContinuousEffect {
    const source: Oid
    const duration: Duration
    const durationData: DurationData
    var modifications: seq<Modification>
    var triggeredAbilities: seq<nat>

    ghost predicate Valid()
      reads this
    {
      IsDurationDataValid(duration, durationData)
    }

    constructor Make(source: Oid, duration: Duration, data: DurationData)
      requires IsDurationDataValid(duration, data)
      ensures Valid()
      ensures this.source == source && this.duration == duration && durationData == data
      ensures modifications == [] && triggeredAbilities == []
    {
      this.source := source;
      this.duration := duration;
      durationData := data;
      modifications := [];
      triggeredAbilities := [];
    }

    /**
     * The constructor: missing data means the default, empty data, and
     * data the duration cannot use is refused.
     */
    static method Create(source: Oid, duration: Duration, data: Option<DurationData>)
      returns (r: Result<ContinuousEffect>)
      ensures var d := if data.Some? then data.value else NoData;
              r.Ok? <==> IsDurationDataValid(duration, d)
      ensures r.Err? ==> r.fault == ArgumentException
      ensures r.Ok? ==> fresh(r.value) && r.value.Valid() && r.value.modifications == []
      ensures r.Ok? ==> r.value.durationData == (if data.Some? then data.value else NoData)
    {
      var d := if data.Some? then data.value else NoData;
      if !IsDurationDataValid(duration, d) {
        return Err(ArgumentException);
      }
      var e := new ContinuousEffect.Make(source, duration, d);
      return Ok(e);
    }

    /** The four-argument constructor: validates, then adds each modification in order. */
    static method CreateWith(source: Oid, duration: Duration, data: DurationData, mods: seq<Modification>)
      returns (r: Result<ContinuousEffect>)
      ensures r.Ok? <==> IsDurationDataValid(duration, data)
      ensures r.Ok? ==> fresh(r.value) && r.value.Valid() && r.value.modifications == mods
    {
      r := Create(source, duration, Some(data));
      if r.Ok? {
        var e := r.value;
        var i := 0;
        while i < |mods|
          invariant 0 <= i <= |mods|
          invariant e.modifications == mods[..i] && e.Valid()
          modifies e
        {
          e.AddModification(mods[i]);
          assert mods[..i + 1] == mods[..i] + [mods[i]];
          i := i + 1;
        }
        assert mods[..i] == mods;
      }
    }

    method AddModification(m: Modification)
      modifies this
      ensures modifications == old(modifications) + [m]
      ensures triggeredAbilities == old(triggeredAbilities)
    {
      modifications := modifications + [m];
    }

    method AddTriggeredAbility(a: nat)
      modifies this
      ensures triggeredAbilities == old(triggeredAbilities) + [a]
      ensures modifications == old(modifications)
    {
      triggeredAbilities := triggeredAbilities + [a];
    }

    function GetModifications(): (r: seq<Modification>)
      reads this
      ensures r == modifications
    {
      modifications
    }

    function Active(turnCount: int, phase: PhaseType): (r: Result<bool>)
      requires Valid()
      reads this
      ensures r == IsActive(duration, durationData, turnCount, phase)
    {
      IsActive(duration, durationData, turnCount, phase)
    }
  }
}
