/**
 * Applying and reverting events on a game (`MTGEvent.Apply`, `PushChild`,
 * `CheckTriggers`, `Revert`, `RevertAllChildren`, and every event's
 * `ApplyAction` and `RevertAction`).
 *
 * Each method records what it did as a `Node` and is proved to do exactly
 * what `EventTree` says the node means: `Runs` (this node is what applying
 * the event in the old state produces) and `Eff` (the new state). A fault
 * the source would throw is an `Err` result, after which the state is not
 * described; for the simple events it is stated exactly when one occurs
 * (`PrimFault`, `SimpleFault`). Every choice a player makes is taken from
 * the game's answer lists, which never grow.
 */
module Engine {
  import opened Wrappers
  import opened Oids
  import opened Mana
  import opened Zones
  import opened Objects
  import opened Choices
  import opened Targets
  import opened EventTypes
  import opened GameState
  import opened Abilities
  import opened EventTree
  import opened Games

  /** `r` is a record of applying `e` in `s`, and `t` is the state it leaves. */
  ghost predicate Applied(s: State, e: Event, r: Result<Node>, t: State, trig: Event -> seq<TriggerEntry>)
  {
    r.Ok? ==> r.value.event == e && Runs(s, r.value, trig) && t == Eff(s, r.value)
  }

  // ----------------------------------------------------------------------
  // When applying an event faults
  // ----------------------------------------------------------------------

  /** `r` is a fault exactly when `f` names one, and then that fault. */
  predicate FaultsAs<T>(r: Result<T>, f: Option<Fault>)
  {
    match r
    case Ok(_) => f.None?
    case Err(x) => f == Some(x)
  }

  /** The fault of a step's outcome, if any. */
  function FaultOf<T>(r: Result<T>): Option<Fault>
  {
    if r.Err? then Some(r.fault) else None
  }

  /** The entries `CheckTriggers` pushes after the action of `e` succeeded (`ok`) or not. */
  function Scanned(e: Event, ok: bool, trig: Event -> seq<TriggerEntry>): seq<TriggerEntry>
  {
    if ok && !e.PushTriggeredAbilityEvent? then trig(e) else []
  }

  /** `CheckTriggers` faults when an entry it pushes is already pending, or pushed twice. */
  function ScanFault(pending: seq<TriggerEntry>, entries: seq<TriggerEntry>): Option<Fault>
  {
    if Fresh(pending, entries) then None else Some(InvalidOperationException)
  }

  /** The fault the own action of an event with no children throws in `s`, if any. */
  function OwnFault(s: State, e: Event, specs: map<TargetId, TargetSpec>): Option<Fault>
    requires Primitive(e)
  {
    match e
    case TapEvent(o) =>
      if FindZone(s, o) == Some(BattlefieldZone) && o !in s.objects then Some(KeyNotFoundException) else None
    case UntapEvent(o) =>
      if FindZone(s, o) == Some(BattlefieldZone) && o !in s.objects then Some(KeyNotFoundException) else None
    case AddManaEvent(p, m) => FaultOf(AddManaStep(s, p, m).0)
    case RemoveManaEvent(p, m) => FaultOf(RemoveManaStep(s, p, m).0)
    case MoveZoneEvent(from, to, o) =>
      if (from.Some? && from.value == to) || FindZone(s, o) != from then None
      else if from.None? then Some(NullReferenceException)
      else FaultOf(MoveStep(s, from.value, to, o).0)
    case GainLifeEvent(p, a) => if a > 0 then FaultOf(LifeStep(s, p, a).0) else None
    case LoseLifeEvent(p, a) => if a > 0 then FaultOf(LifeStep(s, p, -a).0) else None
    case PushTriggeredAbilityEvent(entry) => if entry in s.pending then Some(InvalidOperationException) else None
    case GenerateAbilityObjectEvent(src, res) => FaultOf(CreateStep(s, AbilityObjectOf(src, res)).0)
    case DeclareTargetEvent(_, tid) => if tid !in s.targets || tid !in specs then Some(KeyNotFoundException) else None
    case _ => None
  }

  /**
   * Whether the own action of an event with no children succeeds in `s`:
   * a tap or untap of a permanent in the other position, a removal of a
   * symbol the pool holds, a move out of the zone the object is in, a
   * positive life change, a declaration `DeclareSpec` accepts, and every
   * mana addition, trigger push and ability object.
   */
  function OwnOk(s: State, e: Event, specs: map<TargetId, TargetSpec>, answers: seq<Answer<PlayerOrOid>>): bool
    requires Primitive(e) && OwnFault(s, e, specs).None?
  {
    match e
    case TapEvent(o) => FindZone(s, o) == Some(BattlefieldZone) && !s.objects[o].status.tapped
    case UntapEvent(o) => FindZone(s, o) == Some(BattlefieldZone) && s.objects[o].status.tapped
    case RemoveManaEvent(p, m) => RemoveManaStep(s, p, m).0.value
    case MoveZoneEvent(from, to, o) => from.Some? && from.value != to && FindZone(s, o) == from
    case GainLifeEvent(_, a) => a > 0
    case LoseLifeEvent(_, a) => a > 0
    case DeclareTargetEvent(_, tid) => DeclareSpec(specs[tid], s.targets[tid], answers).0
    case _ => true
  }

  /** The fault applying an event with no children throws in `s`: its own action's, or its trigger scan's. */
  function PrimFault(s: State, e: Event, specs: map<TargetId, TargetSpec>, answers: seq<Answer<PlayerOrOid>>,
                     trig: Event -> seq<TriggerEntry>): Option<Fault>
    requires Primitive(e)
  {
    var f := OwnFault(s, e, specs);
    if f.Some? then f else ScanFault(s.pending, Scanned(e, OwnOk(s, e, specs, answers), trig))
  }

  /** The pending trigger entries after applying an event with no children without a fault. */
  function PendingAfter(s: State, e: Event, specs: map<TargetId, TargetSpec>, answers: seq<Answer<PlayerOrOid>>,
                        trig: Event -> seq<TriggerEntry>): seq<TriggerEntry>
    requires Primitive(e) && OwnFault(s, e, specs).None?
  {
    if e.PushTriggeredAbilityEvent? then s.pending + [e.entry]
    else s.pending + Scanned(e, OwnOk(s, e, specs, answers), trig)
  }

  /** Applying an event with no children faults as `PrimFault` says, and otherwise succeeds as `OwnOk` says. */
  predicate PrimOutcome(s: State, e: Event, specs: map<TargetId, TargetSpec>, answers: seq<Answer<PlayerOrOid>>,
                        trig: Event -> seq<TriggerEntry>, r: Result<Node>, pending: seq<TriggerEntry>)
    requires Primitive(e)
  {
    && FaultsAs(r, PrimFault(s, e, specs, answers, trig))
    && (r.Ok? ==> r.value.ok == OwnOk(s, e, specs, answers) && pending == PendingAfter(s, e, specs, answers, trig))
  }

  /** The events applied by their own action alone, or by one child with no children of its own. */
  predicate Simple(e: Event)
  {
    || Primitive(e) || e.DealDamageEvent? || e.DrawCardEvent? || e.DiscardCardEvent? || e.PlayLandEvent?
    || (e.BoundCost? && e.cost.TapSelfCost?)
  }

  /**
   * The fault a one-child event throws before pushing its child: damage
   * to an object, or a draw for a player or library that does not exist.
   */
  function LeadFault(s: State, e: Event): Option<Fault>
  {
    match e
    case DealDamageEvent(t, a) => if a > 0 && !t.PlayerValue? then Some(NotImplementedException) else None
    case DrawCardEvent(p) =>
      if !(0 <= p < |s.players|) then Some(ArgumentOutOfRangeException)
      else if LibraryZone(p) !in s.zones then Some(KeyNotFoundException)
      else None
    case _ => None
  }

  /** The child a one-child event pushes in `s`, unless it is refused first. */
  function OnlyChild(s: State, e: Event): (r: Option<Event>)
    requires Simple(e) && !Primitive(e) && LeadFault(s, e).None?
    ensures r.Some? ==> Primitive(r.value)
  {
    match e
    case DealDamageEvent(t, a) => if a > 0 then Some(LoseLifeEvent(t.player, a)) else None
    case DrawCardEvent(p) =>
      var lib := s.zones[LibraryZone(p)];
      if lib == [] then None else Some(MoveZoneEvent(Some(LibraryZone(p)), HandZone(p), lib[0]))
    case DiscardCardEvent(o) =>
      var z := FindZone(s, o);
      if z.Some? && z.value.HandZone? then Some(MoveZoneEvent(Some(HandZone(z.value.player)), GraveyardZone(z.value.player), o)) else None
    case PlayLandEvent(src) => Some(MoveZoneEvent(FindZone(s, src), BattlefieldZone, src))
    case BoundCost(src, _) => Some(TapEvent(src))
  }

  /** The fault applying a simple event throws in `s`, if any. */
  function SimpleFault(s: State, e: Event, specs: map<TargetId, TargetSpec>, answers: seq<Answer<PlayerOrOid>>,
                       trig: Event -> seq<TriggerEntry>): Option<Fault>
    requires Simple(e)
  {
    if Primitive(e) then PrimFault(s, e, specs, answers, trig)
    else if LeadFault(s, e).Some? then LeadFault(s, e)
    else match OnlyChild(s, e)
      case None => None
      case Some(c) =>
        var f := PrimFault(s, c, specs, answers, trig);
        if f.Some? then f
        else ScanFault(PendingAfter(s, c, specs, answers, trig), Scanned(e, OwnOk(s, c, specs, answers), trig))
  }

  /** No object is listed in two zones. */
  ghost predicate SingleZoned(s: State)
  {
    forall z1, z2, o :: z1 in s.zones && z2 in s.zones && o in s.zones[z1] && o in s.zones[z2] ==> z1 == z2
  }

  /**
   * The players, zones and targets a simple event names exist, the mana it
   * adds has at most one colour, its damage goes to a player, and a move
   * with no old zone, or a land played, is of an object in some zone.
   */
  ghost predicate SimpleWellFormed(s: State, e: Event, specs: map<TargetId, TargetSpec>)
  {
    var n := |s.players|;
    match e
    case AddManaEvent(p, m) => 0 <= p < n && ColorCount(m.color) <= 1
    case RemoveManaEvent(p, _) => 0 <= p < n
    case MoveZoneEvent(from, to, o) => IsZoneOf(to, n) && (from.Some? || FindZone(s, o).Some?)
    case GainLifeEvent(p, _) => 0 <= p < n
    case LoseLifeEvent(p, _) => 0 <= p < n
    case DeclareTargetEvent(_, tid) => tid in s.targets && tid in specs
    case DealDamageEvent(t, a) => a > 0 ==> t.PlayerValue? && 0 <= t.player < n
    case DrawCardEvent(p) => 0 <= p < n
    case PlayLandEvent(src) => FindZone(s, src).Some?
    case _ => true
  }

  /** The trigger entries applying a simple event in `s` may push: its child's, then its own. */
  function SimpleScan(s: State, e: Event, trig: Event -> seq<TriggerEntry>): seq<TriggerEntry>
    requires Simple(e)
  {
    if e.PushTriggeredAbilityEvent? then [e.entry]
    else if Primitive(e) then trig(e)
    else if LeadFault(s, e).Some? then []
    else match OnlyChild(s, e)
      case None => []
      case Some(c) => trig(c) + trig(e)
  }

  /**
   * In a consistent state where no object is in two zones, a simple event
   * that names what exists, and whose trigger entries are new, applies
   * without a fault.
   */
  lemma SimpleNoFault(s: State, e: Event, specs: map<TargetId, TargetSpec>, answers: seq<Answer<PlayerOrOid>>,
                      trig: Event -> seq<TriggerEntry>)
    requires Consistent(s) && SingleZoned(s) && Simple(e) && SimpleWellFormed(s, e, specs)
    requires Fresh(s.pending, SimpleScan(s, e, trig))
    ensures SimpleFault(s, e, specs, answers, trig) == None
  {
    if Primitive(e) {
      PrimNoFault(s, e, specs, answers, trig);
    } else {
      assert LeadFault(s, e).None?;
      match OnlyChild(s, e)
      case None =>
      case Some(c) =>
        FreshAppend(s.pending, trig(c), trig(e));
        ChildWellFormed(s, e, specs);
        PrimNoFault(s, c, specs, answers, trig);
    }
  }

  /** The child a well-formed one-child event pushes is well-formed. */
  lemma ChildWellFormed(s: State, e: Event, specs: map<TargetId, TargetSpec>)
    requires Simple(e) && !Primitive(e) && SimpleWellFormed(s, e, specs) && LeadFault(s, e).None?
    ensures OnlyChild(s, e).Some? ==> SimpleWellFormed(s, OnlyChild(s, e).value, specs)
  {
  }

  /** The no-fault case of `SimpleNoFault` for events with no children. */
  lemma PrimNoFault(s: State, e: Event, specs: map<TargetId, TargetSpec>, answers: seq<Answer<PlayerOrOid>>,
                    trig: Event -> seq<TriggerEntry>)
    requires Consistent(s) && SingleZoned(s) && Primitive(e) && SimpleWellFormed(s, e, specs)
    requires Fresh(s.pending, if e.PushTriggeredAbilityEvent? then [e.entry] else trig(e))
    ensures PrimFault(s, e, specs, answers, trig) == None
  {
    match e
    case TapEvent(o) => ZonedListed(s, o);
    case UntapEvent(o) => ZonedListed(s, o);
    case MoveZoneEvent(from, to, o) =>
      if from.Some? && from.value != to && FindZone(s, o) == from {
        MoveNoFault(s, from, to, o);
      }
    case PushTriggeredAbilityEvent(entry) => assert [entry][0] == entry && [entry][..0] == [];
    case _ =>
  }

  /** An object in some zone of a consistent state exists. */
  lemma ZonedListed(s: State, o: Oid)
    requires Consistent(s)
    ensures FindZone(s, o).Some? ==> o in s.objects
  {
  }

  /** A move out of the zone an object is in, to another zone of the game, does not fault. */
  lemma MoveNoFault(s: State, from: Option<ZoneId>, to: ZoneId, o: Oid)
    requires Consistent(s) && SingleZoned(s) && IsZoneOf(to, |s.players|)
    requires from.Some? && from.value != to && FindZone(s, o) == from
    ensures MoveStep(s, from.value, to, o).0.Ok?
  {
    var a := from.value;
    assert a in s.zones && to in s.zones && o in s.zones[a];
    assert o !in s.zones[to];
    var rest := ZoneRemove(s.zones[a], o).value;
    assert s.zones[a := rest][to] == s.zones[to];
  }

  // ----------------------------------------------------------------------
  // Recording children
  // ----------------------------------------------------------------------

  /** `PushChild`: a run child appended to run attempts keeps them run, and its change follows theirs. */
  lemma RunsSnoc(s: State, ns: seq<Node>, c: Node, trig: Event -> seq<TriggerEntry>)
    requires RunsAll(s, ns, trig) && Runs(EffAll(s, ns), c, trig)
    ensures RunsAll(s, ns + [c], trig) && EffAll(s, ns + [c]) == Eff(EffAll(s, ns), c)
    ensures Events(ns + [c]) == Events(ns) + [c.event]
  {
    assert (ns + [c])[..|ns|] == ns;
  }

  /** The outcome of an event's own action and where its children start do not depend on the attempts recorded. */
  lemma LocalHead(s: State, n: Node, m: Node)
    requires n.event == m.event && n.ok == m.ok && n.detail == m.detail && n.revertedAll == m.revertedAll
    ensures Local(s, n) == Local(s, m) && Start(s, n) == Start(s, m)
  {
    assert n == m.(attempts := n.attempts);
  }

  /** The children an action pushes do not depend on the attempts recorded. */
  lemma CoreHead(s: State, n: Node, m: Node, core: seq<Node>)
    requires n.event == m.event && n.ok == m.ok && n.detail == m.detail && n.revertedAll == m.revertedAll
    ensures CoreShaped(s, n, core) == CoreShaped(s, m, core)
  {
    assert n == m.(attempts := n.attempts);
  }

  /** A successful node with its trigger pushes appended is a run of its event. */
  lemma FinishRuns(s: State, n0: Node, attempts: seq<Node>, trig: Event -> seq<TriggerEntry>)
    requires Local(s, n0) && CoreShaped(s, n0, n0.attempts) && n0.ok && !n0.event.PushTriggeredAbilityEvent?
    requires |n0.attempts| <= |attempts| && attempts[..|n0.attempts|] == n0.attempts
    requires Events(attempts[|n0.attempts|..]) == Pushes(trig(n0.event))
    requires RunsAll(Start(s, n0), attempts, trig)
    ensures Runs(s, n0.(attempts := attempts), trig)
    ensures Eff(s, n0.(attempts := attempts)) == EffAll(Start(s, n0), attempts)
  {
    LocalHead(s, n0.(attempts := attempts), n0);
    ShapedAfter(s, n0, attempts, trig);
  }

  /** The children an action pushed, followed by its trigger pushes, have the shape of its event. */
  lemma ShapedAfter(s: State, n0: Node, attempts: seq<Node>, trig: Event -> seq<TriggerEntry>)
    requires CoreShaped(s, n0, n0.attempts) && n0.ok && !n0.event.PushTriggeredAbilityEvent?
    requires |n0.attempts| <= |attempts| && attempts[..|n0.attempts|] == n0.attempts
    requires Events(attempts[|n0.attempts|..]) == Pushes(trig(n0.event))
    ensures Shaped(s, n0.(attempts := attempts), trig)
  {
    var n := n0.(attempts := attempts);
    var k := |n0.attempts|;
    assert |TriggerPushes(n, trig)| == |attempts| - k;
    CoreHead(s, n, n0, n.attempts[..k]);
  }

  /** A failure, or a trigger push, with no trigger pushes after its children is a run of its event. */
  lemma QuietRuns(s: State, n0: Node, trig: Event -> seq<TriggerEntry>)
    requires Local(s, n0) && CoreShaped(s, n0, n0.attempts) && RunsAll(Start(s, n0), n0.attempts, trig)
    requires !n0.ok || n0.event.PushTriggeredAbilityEvent?
    ensures Runs(s, n0, trig)
  {
    ShapedQuiet(s, n0, trig);
  }

  /** The children of a failure, or of a trigger push, have the shape of its event. */
  lemma ShapedQuiet(s: State, n0: Node, trig: Event -> seq<TriggerEntry>)
    requires CoreShaped(s, n0, n0.attempts)
    requires !n0.ok || n0.event.PushTriggeredAbilityEvent?
    ensures Shaped(s, n0, trig)
  {
    assert TriggerPushes(n0, trig) == [] && n0.attempts[..|n0.attempts|] == n0.attempts;
  }

  /**
   * The trigger pushes `CheckTriggers` makes, one per entry, after the
   * attempts so far: a fault exactly when an entry is already pending or
   * comes twice, and otherwise every entry is pending after the old ones.
   */
  method PushAll(g: Game, ghost start: State, prefix: seq<Node>, entries: seq<TriggerEntry>) returns (r: Result<seq<Node>>)
    requires RunsAll(start, prefix, g.triggers) && g.Snapshot() == EffAll(start, prefix)
    modifies g
    ensures r.Ok? ==> && |prefix| <= |r.value| && r.value[..|prefix|] == prefix
                      && Events(r.value[|prefix|..]) == Pushes(entries)
                      && RunsAll(start, r.value, g.triggers) && g.Snapshot() == EffAll(start, r.value)
    ensures FaultsAs(r, ScanFault(old(g.pending), entries))
    ensures r.Ok? ==> g.pending == old(g.pending) + entries
    ensures g.manaAnswers == old(g.manaAnswers) && g.targetAnswers == old(g.targetAnswers) && g.targets == old(g.targets)
  {
    var pushes: seq<Node> := [];
    var i := 0;
    assert prefix + pushes == prefix;
    while i < |entries|
      invariant 0 <= i <= |entries| && Events(pushes) == Pushes(entries[..i])
      invariant RunsAll(start, prefix + pushes, g.triggers) && g.Snapshot() == EffAll(start, prefix + pushes)
      invariant g.pending == old(g.pending) + entries[..i] && Fresh(old(g.pending), entries[..i])
      invariant g.manaAnswers == old(g.manaAnswers) && g.targetAnswers == old(g.targetAnswers) && g.targets == old(g.targets)
    {
      var next := PushChild(g, start, prefix, pushes, old(g.pending), entries, i);
      if next.Err? {
        return Err(next.fault);
      }
      pushes := next.value;
      i := i + 1;
    }
    PushesSplit(prefix, pushes, entries, i);
    PushedAll(old(g.pending), entries, i);
    return Ok(prefix + pushes);
  }

  /**
   * One trigger push, for `entries[i]`, recorded after the attempts so far,
   * with the entries before it pending after `p`: a fault when it is
   * pending too.
   */
  method PushChild(g: Game, ghost start: State, prefix: seq<Node>, pushes: seq<Node>, ghost p: seq<TriggerEntry>,
                   entries: seq<TriggerEntry>, i: nat)
    returns (r: Result<seq<Node>>)
    requires i < |entries| && Events(pushes) == Pushes(entries[..i])
    requires RunsAll(start, prefix + pushes, g.triggers) && g.Snapshot() == EffAll(start, prefix + pushes)
    requires g.pending == p + entries[..i] && Fresh(p, entries[..i])
    modifies g
    ensures r.Ok? ==> && Events(r.value) == Pushes(entries[..i + 1])
                      && RunsAll(start, prefix + r.value, g.triggers)
                      && g.Snapshot() == EffAll(start, prefix + r.value)
                      && g.pending == p + entries[..i + 1] && Fresh(p, entries[..i + 1])
    ensures r.Err? ==> r.fault == InvalidOperationException && !Fresh(p, entries)
    ensures g.manaAnswers == old(g.manaAnswers) && g.targetAnswers == old(g.targetAnswers) && g.targets == old(g.targets)
  {
    var c := ApplyPush(g, entries[i]);
    if c.Err? {
      NotFresh(p, entries, i);
      return Err(c.fault);
    }
    FreshSnoc(p, entries, i);
    PendingSnoc(p, entries, i);
    RunsSnoc(start, prefix + pushes, c.value, g.triggers);
    PushSnoc(prefix, pushes, c.value, entries, i);
    return Ok(pushes + [c.value]);
  }

  /** Once every entry is pushed, the scan had no fault and they all follow the old entries. */
  lemma PushedAll(p: seq<TriggerEntry>, es: seq<TriggerEntry>, i: nat)
    requires i == |es| && Fresh(p, es[..i])
    ensures ScanFault(p, es) == None && p + es[..i] == p + es
  {
    assert es[..i] == es;
  }

  /** One more entry pending after the ones pushed so far. */
  lemma PendingSnoc(p: seq<TriggerEntry>, es: seq<TriggerEntry>, i: nat)
    requires i < |es|
    ensures p + es[..i] + [es[i]] == p + es[..i + 1]
  {
    assert es[..i + 1] == es[..i] + [es[i]];
  }

  /** After the last entry, the attempts are the prefix followed by one push per entry. */
  lemma PushesSplit(prefix: seq<Node>, pushes: seq<Node>, entries: seq<TriggerEntry>, i: nat)
    requires i == |entries| && Events(pushes) == Pushes(entries[..i])
    ensures (prefix + pushes)[..|prefix|] == prefix && Events((prefix + pushes)[|prefix|..]) == Pushes(entries)
  {
    assert entries[..i] == entries;
    assert (prefix + pushes)[|prefix|..] == pushes;
  }

  lemma PushSnoc(prefix: seq<Node>, pushes: seq<Node>, c: Node, entries: seq<TriggerEntry>, i: nat)
    requires i < |entries| && Events(pushes) == Pushes(entries[..i]) && c.event == PushTriggeredAbilityEvent(entries[i])
    ensures Events(pushes + [c]) == Pushes(entries[..i + 1]) && prefix + pushes + [c] == prefix + (pushes + [c])
  {
    assert entries[..i + 1] == entries[..i] + [entries[i]];
  }

  /**
   * `CheckTriggers` after an `ApplyAction` that returned `n0.ok`: on a
   * success, except for a trigger push itself, one trigger push per entry
   * the scan finds, recorded after the children. It faults exactly when
   * `PushAll` does.
   */
  method Finish(g: Game, ghost s: State, n0: Node) returns (r: Result<Node>)
    requires Local(s, n0) && CoreShaped(s, n0, n0.attempts)
    requires RunsAll(Start(s, n0), n0.attempts, g.triggers) && g.Snapshot() == Eff(s, n0)
    modifies g
    ensures Applied(s, n0.event, r, g.Snapshot(), g.triggers)
    ensures FaultsAs(r, ScanFault(old(g.pending), Scanned(n0.event, n0.ok, g.triggers)))
    ensures r.Ok? ==> r.value.ok == n0.ok && r.value.detail == n0.detail
                      && g.pending == old(g.pending) + Scanned(n0.event, n0.ok, g.triggers)
    ensures g.manaAnswers == old(g.manaAnswers) && g.targetAnswers == old(g.targetAnswers) && g.targets == old(g.targets)
  {
    if !n0.ok || n0.event.PushTriggeredAbilityEvent? {
      QuietRuns(s, n0, g.triggers);
      assert g.pending + [] == g.pending;
      return Ok(n0);
    }
    var pushed := PushAll(g, Start(s, n0), n0.attempts, g.triggers(n0.event));
    if pushed.Err? {
      return Err(pushed.fault);
    }
    FinishRuns(s, n0, pushed.value, g.triggers);
    return Ok(n0.(attempts := pushed.value));
  }

  // ----------------------------------------------------------------------
  // Events with an own action and no children
  // ----------------------------------------------------------------------

  /** `PushTriggeredAbilityEvent`: a fault when the entry is already pending, otherwise it is added. */
  method ApplyPush(g: Game, entry: TriggerEntry) returns (r: Result<Node>)
    modifies g
    ensures Applied(old(g.Snapshot()), PushTriggeredAbilityEvent(entry), r, g.Snapshot(), g.triggers)
    ensures r.Err? <==> entry in old(g.pending)
    ensures r.Err? ==> r.fault == InvalidOperationException
    ensures r.Ok? ==> r.value.ok && g.pending == old(g.pending) + [entry]
    ensures PrimOutcome(old(g.Snapshot()), PushTriggeredAbilityEvent(entry), g.targetSpecs, old(g.targetAnswers), g.triggers, r, g.pending)
    ensures g.manaAnswers == old(g.manaAnswers) && g.targetAnswers == old(g.targetAnswers) && g.targets == old(g.targets)
  {
    ghost var s := g.Snapshot();
    var res := g.PushPending(entry);
    if res.Err? {
      return Err(res.fault);
    }
    r := Ok(Node(PushTriggeredAbilityEvent(entry), true, NoDetail, [], false));
    Pushed(s, r.value, g.targetSpecs, old(g.targetAnswers), g.triggers);
  }

  /** A trigger push that succeeded: the entry goes to the back of the pending list, and nothing is scanned. */
  lemma Pushed(s: State, n: Node, specs: map<TargetId, TargetSpec>, answers: seq<Answer<PlayerOrOid>>,
               trig: Event -> seq<TriggerEntry>)
    requires n.event.PushTriggeredAbilityEvent? && n.event.entry !in s.pending
    requires n == Node(n.event, true, NoDetail, [], false)
    ensures Runs(s, n, trig) && Eff(s, n) == PushPendingStep(s, n.event.entry).1
    ensures PrimOutcome(s, n.event, specs, answers, trig, Ok(n), s.pending + [n.event.entry])
  {
    PushedRuns(s, n, trig);
    var e := n.event;
    assert OwnFault(s, e, specs) == None && OwnOk(s, e, specs, answers);
    assert Scanned(e, true, trig) == [] && ScanFault(s.pending, []) == None;
  }

  lemma PushedRuns(s: State, n: Node, trig: Event -> seq<TriggerEntry>)
    requires n.event.PushTriggeredAbilityEvent? && n.event.entry !in s.pending
    requires n == Node(n.event, true, NoDetail, [], false)
    ensures Runs(s, n, trig) && Eff(s, n) == PushPendingStep(s, n.event.entry).1
  {
    assert Local(s, n);
    assert TriggerPushes(n, trig) == [] && CoreShaped(s, n, []);
    assert Start(s, n) == PushPendingStep(s, n.event.entry).1;
  }

  /** `TapEvent` / `UntapEvent`: only a permanent on the battlefield in the other position changes. */
  method ApplyTap(g: Game, e: Event) returns (r: Result<Node>)
    requires e.TapEvent? || e.UntapEvent?
    modifies g
    ensures Applied(old(g.Snapshot()), e, r, g.Snapshot(), g.triggers)
    ensures PrimOutcome(old(g.Snapshot()), e, g.targetSpecs, old(g.targetAnswers), g.triggers, r, g.pending)
    ensures g.manaAnswers == old(g.manaAnswers)
  {
    ghost var s := g.Snapshot();
    var o := e.source;
    var ok := false;
    if FindZone(g.Snapshot(), o) == Some(BattlefieldZone) {
      if o !in g.objects {
        return Err(KeyNotFoundException);
      }
      if g.objects[o].status.tapped != e.TapEvent? {
        var _ := g.SetTapped(o, e.TapEvent?);
        ok := true;
      }
    }
    r := Finish(g, s, Node(e, ok, NoDetail, [], false));
  }

  /** `AddManaEvent` always succeeds; `RemoveManaEvent` succeeds when the pool held the symbol. */
  method ApplyMana(g: Game, e: Event) returns (r: Result<Node>)
    requires e.AddManaEvent? || e.RemoveManaEvent?
    modifies g
    ensures Applied(old(g.Snapshot()), e, r, g.Snapshot(), g.triggers)
    ensures PrimOutcome(old(g.Snapshot()), e, g.targetSpecs, old(g.targetAnswers), g.triggers, r, g.pending)
    ensures g.manaAnswers == old(g.manaAnswers)
  {
    ghost var s := g.Snapshot();
    var ok := true;
    if e.AddManaEvent? {
      var res := g.AddMana(e.player, e.mana);
      if res.Err? {
        return Err(res.fault);
      }
    } else {
      var res := g.RemoveMana(e.player, e.mana);
      if res.Err? {
        return Err(res.fault);
      }
      ok := res.value;
      if !ok {
        assert s.players[e.player := s.players[e.player]] == s.players;
      }
    }
    r := Finish(g, s, Node(e, ok, NoDetail, [], false));
  }

  /**
   * `MoveZoneEvent`: refused when the zones are the same or the object is
   * not in the old zone; a missing old zone (null) that matches is a fault.
   */
  method ApplyMove(g: Game, e: Event) returns (r: Result<Node>)
    requires e.MoveZoneEvent?
    modifies g
    ensures Applied(old(g.Snapshot()), e, r, g.Snapshot(), g.triggers)
    ensures PrimOutcome(old(g.Snapshot()), e, g.targetSpecs, old(g.targetAnswers), g.triggers, r, g.pending)
    ensures g.manaAnswers == old(g.manaAnswers)
  {
    ghost var s := g.Snapshot();
    var ok := false;
    if e.from.Some? && e.from.value == e.to {
    } else if FindZone(g.Snapshot(), e.oid) != e.from {
    } else if e.from.None? {
      return Err(NullReferenceException);
    } else {
      var res := g.MoveObject(e.oid, e.from.value, e.to);
      if res.Err? {
        return Err(res.fault);
      }
      ok := true;
    }
    r := Finish(g, s, Node(e, ok, NoDetail, [], false));
  }

  /** `GainLifeEvent` / `LoseLifeEvent`: refused for an amount that is not positive. */
  method ApplyLife(g: Game, e: Event) returns (r: Result<Node>)
    requires e.GainLifeEvent? || e.LoseLifeEvent?
    modifies g
    ensures Applied(old(g.Snapshot()), e, r, g.Snapshot(), g.triggers)
    ensures PrimOutcome(old(g.Snapshot()), e, g.targetSpecs, old(g.targetAnswers), g.triggers, r, g.pending)
    ensures g.manaAnswers == old(g.manaAnswers)
  {
    ghost var s := g.Snapshot();
    var ok := false;
    if e.amount > 0 {
      var res := g.ChangeLife(e.player, if e.GainLifeEvent? then e.amount else -e.amount);
      if res.Err? {
        return Err(res.fault);
      }
      ok := true;
    }
    r := Finish(g, s, Node(e, ok, NoDetail, [], false));
  }

  /** `GenerateAbilityObjectEvent`: a new ability object on top of the stack, remembered for the revert. */
  method ApplyGenerate(g: Game, e: Event) returns (r: Result<Node>)
    requires e.GenerateAbilityObjectEvent?
    modifies g
    ensures Applied(old(g.Snapshot()), e, r, g.Snapshot(), g.triggers)
    ensures PrimOutcome(old(g.Snapshot()), e, g.targetSpecs, old(g.targetAnswers), g.triggers, r, g.pending)
    ensures g.manaAnswers == old(g.manaAnswers)
  {
    ghost var s := g.Snapshot();
    var res := g.CreateOnStack(AbilityObjectOf(e.source, e.resolution));
    if res.Err? {
      return Err(res.fault);
    }
    r := Finish(g, s, Node(e, true, Created(res.value), [], false));
  }

  /** `DeclareTargetEvent`: `target.Declare`, remembering the state it replaced. */
  method ApplyDeclare(g: Game, e: Event) returns (r: Result<Node>)
    requires e.DeclareTargetEvent?
    modifies g
    ensures Applied(old(g.Snapshot()), e, r, g.Snapshot(), g.triggers)
    ensures PrimOutcome(old(g.Snapshot()), e, g.targetSpecs, old(g.targetAnswers), g.triggers, r, g.pending)
    ensures r.Ok? ==> && e.tid in old(g.targets) && e.tid in g.targetSpecs && e.tid in g.targets
                      && var d := DeclareSpec(g.targetSpecs[e.tid], old(g.targets)[e.tid], old(g.targetAnswers));
                         && (r.value.ok <==> d.0)
                         && (r.value.ok ==> r.value.detail == Declared(old(g.targets)[e.tid], d.1) && g.targets[e.tid] == d.1)
                         && (!r.value.ok ==> g.targets == old(g.targets))
                         && g.targetAnswers == d.2
    ensures g.manaAnswers == old(g.manaAnswers)
  {
    ghost var s := g.Snapshot();
    var before := if e.tid in g.targets then g.targets[e.tid] else Undeclared;
    var res, st := g.DeclareTarget(e.tid);
    if res.Err? {
      return Err(res.fault);
    }
    var n := if res.value then Node(e, true, Declared(before, st), [], false) else Node(e, false, NoDetail, [], false);
    r := Finish(g, s, n);
  }

  /** The events with an own action and no children of their own. */
  predicate Primitive(e: Event)
  {
    || e.TapEvent? || e.UntapEvent? || e.AddManaEvent? || e.RemoveManaEvent? || e.MoveZoneEvent?
    || e.GainLifeEvent? || e.LoseLifeEvent? || e.PushTriggeredAbilityEvent?
    || e.GenerateAbilityObjectEvent? || e.DeclareTargetEvent?
  }

  method ApplyPrimitive(g: Game, e: Event) returns (r: Result<Node>)
    requires Primitive(e)
    modifies g
    ensures Applied(old(g.Snapshot()), e, r, g.Snapshot(), g.triggers)
    ensures PrimOutcome(old(g.Snapshot()), e, g.targetSpecs, old(g.targetAnswers), g.triggers, r, g.pending)
    ensures g.manaAnswers == old(g.manaAnswers)
  {
    if e.TapEvent? || e.UntapEvent? {
      r := ApplyTap(g, e);
    } else if e.AddManaEvent? || e.RemoveManaEvent? {
      r := ApplyMana(g, e);
    } else if e.MoveZoneEvent? {
      r := ApplyMove(g, e);
    } else if e.GainLifeEvent? || e.LoseLifeEvent? {
      r := ApplyLife(g, e);
    } else if e.PushTriggeredAbilityEvent? {
      r := ApplyPush(g, e.entry);
    } else if e.GenerateAbilityObjectEvent? {
      r := ApplyGenerate(g, e);
    } else {
      r := ApplyDeclare(g, e);
    }
  }

  /** `PushChild` of an event with no children of its own. */
  method PrimChild(g: Game, ghost start: State, attempts: seq<Node>, e: Event) returns (r: Result<Node>)
    requires Primitive(e)
    requires RunsAll(start, attempts, g.triggers) && g.Snapshot() == EffAll(start, attempts)
    modifies g
    ensures r.Ok? ==> && r.value.event == e
                      && RunsAll(start, attempts + [r.value], g.triggers)
                      && g.Snapshot() == EffAll(start, attempts + [r.value])
    ensures PrimOutcome(old(g.Snapshot()), e, g.targetSpecs, old(g.targetAnswers), g.triggers, r, g.pending)
    ensures g.manaAnswers == old(g.manaAnswers)
  {
    r := ApplyPrimitive(g, e);
    if r.Ok? {
      RunsSnoc(start, attempts, r.value, g.triggers);
    }
  }

  // ----------------------------------------------------------------------
  // Events that push one child
  // ----------------------------------------------------------------------

  /**
   * `DealDamageEvent`: refused for an amount that is not positive; a player
   * loses that much life, whether or not the loss succeeds; damage to an
   * object is not implemented.
   */
  method ApplyDamage(g: Game, e: Event) returns (r: Result<Node>)
    requires e.DealDamageEvent?
    modifies g
    ensures Applied(old(g.Snapshot()), e, r, g.Snapshot(), g.triggers)
    ensures FaultsAs(r, SimpleFault(old(g.Snapshot()), e, g.targetSpecs, old(g.targetAnswers), g.triggers))
    ensures g.manaAnswers == old(g.manaAnswers)
  {
    ghost var s := g.Snapshot();
    if e.amount <= 0 {
      r := Finish(g, s, Node(e, false, NoDetail, [], false));
      return;
    }
    if !e.target.PlayerValue? {
      return Err(NotImplementedException);
    }
    var c := PrimChild(g, s, [], LoseLifeEvent(e.target.player, e.amount));
    if c.Err? {
      return Err(c.fault);
    }
    assert [] + [c.value] == [c.value];
    r := Finish(g, s, Node(e, true, NoDetail, [c.value], false));
  }

  /**
   * `DrawCardEvent`: the top card of the player's library moved to their
   * hand; refused on an empty library, where `library.Get(0)` gives no
   * card.
   */
  method ApplyDraw(g: Game, e: Event) returns (r: Result<Node>)
    requires e.DrawCardEvent?
    modifies g
    ensures Applied(old(g.Snapshot()), e, r, g.Snapshot(), g.triggers)
    ensures FaultsAs(r, SimpleFault(old(g.Snapshot()), e, g.targetSpecs, old(g.targetAnswers), g.triggers))
    ensures g.manaAnswers == old(g.manaAnswers)
  {
    ghost var s := g.Snapshot();
    var p := e.player;
    if !(0 <= p < |g.players|) {
      return Err(ArgumentOutOfRangeException);
    }
    if LibraryZone(p) !in g.zones {
      return Err(KeyNotFoundException);
    }
    var lib := g.zones[LibraryZone(p)];
    if lib == [] {
      r := Finish(g, s, Node(e, false, NoDetail, [], false));
      return;
    }
    var c := PrimChild(g, s, [], MoveZoneEvent(Some(LibraryZone(p)), HandZone(p), lib[0]));
    if c.Err? {
      return Err(c.fault);
    }
    assert [] + [c.value] == [c.value];
    r := Finish(g, s, Node(e, c.value.ok, NoDetail, [c.value], false));
  }

  /** `DiscardCardEvent`: a card in a player's hand moved to that player's graveyard; refused elsewhere. */
  method ApplyDiscard(g: Game, e: Event) returns (r: Result<Node>)
    requires e.DiscardCardEvent?
    modifies g
    ensures Applied(old(g.Snapshot()), e, r, g.Snapshot(), g.triggers)
    ensures FaultsAs(r, SimpleFault(old(g.Snapshot()), e, g.targetSpecs, old(g.targetAnswers), g.triggers))
    ensures g.manaAnswers == old(g.manaAnswers)
  {
    ghost var s := g.Snapshot();
    var z := FindZone(g.Snapshot(), e.oid);
    if !(z.Some? && z.value.HandZone?) {
      r := Finish(g, s, Node(e, false, NoDetail, [], false));
      return;
    }
    var q := z.value.player;
    var c := PrimChild(g, s, [], MoveZoneEvent(Some(HandZone(q)), GraveyardZone(q), e.oid));
    if c.Err? {
      return Err(c.fault);
    }
    assert [] + [c.value] == [c.value];
    r := Finish(g, s, Node(e, c.value.ok, NoDetail, [c.value], false));
  }

  /** `PlayLandEvent`: the source moved from wherever it is to the battlefield. */
  method ApplyPlayLand(g: Game, e: Event) returns (r: Result<Node>)
    requires e.PlayLandEvent?
    modifies g
    ensures Applied(old(g.Snapshot()), e, r, g.Snapshot(), g.triggers)
    ensures FaultsAs(r, SimpleFault(old(g.Snapshot()), e, g.targetSpecs, old(g.targetAnswers), g.triggers))
    ensures g.manaAnswers == old(g.manaAnswers)
  {
    ghost var s := g.Snapshot();
    var c := PrimChild(g, s, [], MoveZoneEvent(FindZone(g.Snapshot(), e.source), BattlefieldZone, e.source));
    if c.Err? {
      return Err(c.fault);
    }
    assert [] + [c.value] == [c.value];
    r := Finish(g, s, Node(e, c.value.ok, NoDetail, [c.value], false));
  }

  // ----------------------------------------------------------------------
  // Reverting
  // ----------------------------------------------------------------------

  /**
   * `RevertAction`: the inverse of each event's own action. A fault of the
   * inverse step (a missing object, player or target) is not raised here:
   * that step then changes nothing.
   */
  method RevertOwn(g: Game, n: Node)
    modifies g
    ensures g.Snapshot() == OwnRevert(old(g.Snapshot()), n)
    ensures g.manaAnswers == old(g.manaAnswers)
  {
    var e := n.event;
    if e.TapEvent? || e.UntapEvent? {
      var _ := g.SetTapped(e.source, e.UntapEvent?);
    } else if e.AddManaEvent? {
      var _ := g.RemoveMana(e.player, e.mana);
    } else if e.RemoveManaEvent? {
      var _ := g.AddMana(e.player, e.mana);
    } else if e.MoveZoneEvent? {
      if e.from.Some? {
        var _ := g.MoveObject(e.oid, e.to, e.from.value);
      }
    } else if e.GainLifeEvent? || e.LoseLifeEvent? {
      var _ := g.ChangeLife(e.player, if e.GainLifeEvent? then -e.amount else e.amount);
    } else if e.PushTriggeredAbilityEvent? {
      g.RemovePending(e.entry);
    } else if e.GenerateAbilityObjectEvent? {
      if n.detail.Created? {
        g.DeleteObject(n.detail.oid);
      }
    } else if e.DeclareTargetEvent? {
      var _ := g.SetTarget(e.tid, Undeclared);
    }
  }

  /**
   * `Revert`: a cost reverts its children whatever they are (`CostEvent`
   * seals it so); any other event does nothing unless it is revertable, and
   * otherwise reverts its own action and then its children.
   */
  method Revert(g: Game, n: Node)
    modifies g
    ensures g.Snapshot() == Undo(old(g.Snapshot()), n)
    ensures g.manaAnswers == old(g.manaAnswers)
    decreases n, 1
  {
    if n.event.BoundCost? {
      RevertKids(g, n);
    } else if Revertable(n) {
      RevertOwn(g, n);
      RevertKids(g, n);
    }
  }

  /** `RevertAllChildren`, for children not already reverted. */
  method RevertKids(g: Game, n: Node)
    modifies g
    ensures g.Snapshot() == Kids(old(g.Snapshot()), n)
    ensures g.manaAnswers == old(g.manaAnswers)
    decreases n, 0
  {
    if !n.revertedAll {
      RevertAll(g, n.attempts);
    }
  }

  /** `RevertAllChildren`: the successful attempts reverted, last to first. */
  method RevertAll(g: Game, ns: seq<Node>)
    modifies g
    ensures g.Snapshot() == UndoAll(old(g.Snapshot()), ns)
    ensures g.manaAnswers == old(g.manaAnswers)
    decreases ns
  {
    var i := |ns|;
    assert ns[..i] == ns;
    while i > 0
      invariant 0 <= i <= |ns|
      invariant UndoAll(old(g.Snapshot()), ns) == UndoAll(g.Snapshot(), ns[..i])
      invariant g.manaAnswers == old(g.manaAnswers)
    {
      assert ns[..i][..i - 1] == ns[..i - 1];
      if ns[i - 1].ok {
        Revert(g, ns[i - 1]);
      }
      i := i - 1;
    }
  }

  // ----------------------------------------------------------------------
  // Applying any event
  // ----------------------------------------------------------------------

  /**
   * `MTGEvent.Apply` (through `MTG.PushEvent`): the event's `ApplyAction`,
   * then on a success `CheckTriggers`. The answer lists only shrink.
   */
  method Apply(g: Game, e: Event) returns (r: Result<Node>)
    modifies g
    ensures Applied(old(g.Snapshot()), e, r, g.Snapshot(), g.triggers)
    ensures Simple(e) ==> FaultsAs(r, SimpleFault(old(g.Snapshot()), e, g.targetSpecs, old(g.targetAnswers), g.triggers))
    ensures |g.manaAnswers| <= old(|g.manaAnswers|)
    decreases |g.manaAnswers|, 3, EventSize(e), 2
  {
    if Primitive(e) {
      r := ApplyPrimitive(g, e);
    } else if e.DealDamageEvent? {
      r := ApplyDamage(g, e);
    } else if e.DrawCardEvent? {
      r := ApplyDraw(g, e);
    } else if e.DiscardCardEvent? {
      r := ApplyDiscard(g, e);
    } else if e.PlayLandEvent? {
      r := ApplyPlayLand(g, e);
    } else if e.EffectEvent? || e.EventContainer? {
      r := ApplyGroup(g, e);
    } else if e.ActivateAbilityEvent? {
      r := ApplyActivate(g, e);
    } else if e.CastSpellEvent? {
      r := ApplyCast(g, e);
    } else {
      r := ApplyCost(g, e.source, e.cost);
    }
  }

  /** `PushChild` of any event. */
  method Child(g: Game, ghost start: State, attempts: seq<Node>, e: Event) returns (r: Result<Node>)
    requires RunsAll(start, attempts, g.triggers) && g.Snapshot() == EffAll(start, attempts)
    modifies g
    ensures r.Ok? ==> && r.value.event == e
                      && RunsAll(start, attempts + [r.value], g.triggers)
                      && g.Snapshot() == EffAll(start, attempts + [r.value])
    ensures |g.manaAnswers| <= old(|g.manaAnswers|)
    decreases |g.manaAnswers|, 3, EventSize(e), 3
  {
    r := Apply(g, e);
    if r.Ok? {
      RunsSnoc(start, attempts, r.value, g.triggers);
    }
  }

  /** One more child recorded, for the event it stands for. */
  lemma KidSnoc(prefix: seq<Node>, kids: seq<Node>, c: Node, es: seq<Event>, i: nat)
    requires i < |es| && Events(kids) == es[..i] && c.event == es[i]
    ensures Events(kids + [c]) == es[..i + 1] && prefix + kids + [c] == prefix + (kids + [c])
  {
    assert es[..i + 1] == es[..i] + [es[i]];
  }

  lemma AllEvents(es: seq<Event>, i: nat)
    requires i == |es|
    ensures es[..i] == es
  {
  }

  /** Every event of a list pushed in turn, whatever each one's outcome. */
  method ApplyAll(g: Game, ghost start: State, prefix: seq<Node>, es: seq<Event>) returns (r: Result<seq<Node>>)
    requires RunsAll(start, prefix, g.triggers) && g.Snapshot() == EffAll(start, prefix)
    modifies g
    ensures r.Ok? ==> && Events(r.value) == es
                      && RunsAll(start, prefix + r.value, g.triggers)
                      && g.Snapshot() == EffAll(start, prefix + r.value)
    ensures es == [] ==> r == Ok([])
    ensures |g.manaAnswers| <= old(|g.manaAnswers|)
    decreases |g.manaAnswers|, 3, EventsSize(es), 5
  {
    var kids: seq<Node> := [];
    var i := 0;
    assert prefix + kids == prefix;
    while i < |es|
      invariant 0 <= i <= |es| && Events(kids) == es[..i]
      invariant RunsAll(start, prefix + kids, g.triggers) && g.Snapshot() == EffAll(start, prefix + kids)
      invariant |g.manaAnswers| <= old(|g.manaAnswers|)
      decreases |es| - i
    {
      var next := NextKid(g, start, prefix, kids, es, i);
      if next.Err? {
        r := Err(next.fault);
        return;
      }
      kids := next.value;
      i := i + 1;
    }
    AllEvents(es, i);
    r := Ok(kids);
  }

  /** The `i`th event of a list pushed after the children so far. */
  method NextKid(g: Game, ghost start: State, prefix: seq<Node>, kids: seq<Node>, es: seq<Event>, i: nat)
    returns (r: Result<seq<Node>>)
    requires i < |es| && Events(kids) == es[..i]
    requires RunsAll(start, prefix + kids, g.triggers) && g.Snapshot() == EffAll(start, prefix + kids)
    modifies g
    ensures r.Ok? ==> && Events(r.value) == es[..i + 1]
                      && RunsAll(start, prefix + r.value, g.triggers)
                      && g.Snapshot() == EffAll(start, prefix + r.value)
    ensures |g.manaAnswers| <= old(|g.manaAnswers|)
    decreases |g.manaAnswers|, 3, EventsSize(es), 4
  {
    EventsSizeBound(es, i);
    var c := Child(g, start, prefix + kids, es[i]);
    if c.Err? {
      return Err(c.fault);
    }
    KidSnoc(prefix, kids, c.value, es, i);
    return Ok(kids + [c.value]);
  }

  /**
   * `EffectEvent`: the effect pushes its events and the event succeeds
   * whatever they do. `MTGEventContainer`: every event pushed, and a
   * success when all of them succeeded, with none reverted.
   */
  method ApplyGroup(g: Game, e: Event) returns (r: Result<Node>)
    requires e.EffectEvent? || e.EventContainer?
    modifies g
    ensures Applied(old(g.Snapshot()), e, r, g.Snapshot(), g.triggers)
    ensures (if e.EffectEvent? then e.effect.pushes else e.events) == [] ==>
              FaultsAs(r, ScanFault(old(g.pending), g.triggers(e)))
    ensures |g.manaAnswers| <= old(|g.manaAnswers|)
    decreases |g.manaAnswers|, 3, EventSize(e), 1
  {
    ghost var s := g.Snapshot();
    var es := if e.EffectEvent? then e.effect.pushes else e.events;
    var kids := ApplyAll(g, s, [], es);
    if kids.Err? {
      return Err(kids.fault);
    }
    assert [] + kids.value == kids.value;
    r := FinishGroup(g, s, e, kids.value);
  }

  /** The outcome of a group once all its events were pushed: a success when all of them succeeded. */
  method FinishGroup(g: Game, ghost s: State, e: Event, core: seq<Node>) returns (r: Result<Node>)
    requires e.EffectEvent? || e.EventContainer?
    requires Events(core) == (if e.EffectEvent? then e.effect.pushes else e.events)
    requires RunsAll(s, core, g.triggers) && g.Snapshot() == EffAll(s, core)
    modifies g
    ensures Applied(s, e, r, g.Snapshot(), g.triggers)
    ensures core == [] ==> FaultsAs(r, ScanFault(old(g.pending), g.triggers(e)))
    ensures g.manaAnswers == old(g.manaAnswers)
  {
    var ok := e.EffectEvent? || forall i | 0 <= i < |core| :: core[i].ok;
    r := Finish(g, s, Node(e, ok, NoDetail, core, false));
  }

  // ----------------------------------------------------------------------
  // Activating and casting
  // ----------------------------------------------------------------------

  /** The steps an activation or a cast pushes until one fails. */
  predicate PlanStep(e: Event)
  {
    e.MoveZoneEvent? || e.GenerateAbilityObjectEvent? || e.DeclareTargetEvent? || e.BoundCost?
  }

  /** `PushChild` of one step of an activation or a cast. */
  method Step(g: Game, ghost start: State, attempts: seq<Node>, e: Event) returns (r: Result<Node>)
    requires PlanStep(e)
    requires RunsAll(start, attempts, g.triggers) && g.Snapshot() == EffAll(start, attempts)
    modifies g
    ensures r.Ok? ==> && r.value.event == e
                      && RunsAll(start, attempts + [r.value], g.triggers)
                      && g.Snapshot() == EffAll(start, attempts + [r.value])
    ensures |g.manaAnswers| <= old(|g.manaAnswers|)
    decreases |g.manaAnswers|, 2, 0, 0
  {
    if e.BoundCost? {
      r := ApplyCost(g, e.source, e.cost);
      if r.Ok? {
        RunsSnoc(start, attempts, r.value, g.triggers);
      }
    } else {
      r := PrimChild(g, start, attempts, e);
    }
  }

  /** The steps of a plan pushed in order until one fails: all of them, or up to the failed one. */
  method ApplyUntilFail(g: Game, ghost start: State, prefix: seq<Node>, plan: seq<Event>) returns (r: Result<seq<Node>>)
    requires forall i :: 0 <= i < |plan| ==> PlanStep(plan[i])
    requires RunsAll(start, prefix, g.triggers) && g.Snapshot() == EffAll(start, prefix)
    modifies g
    ensures r.Ok? ==> && (Completed(plan, r.value) || Stopped(plan, r.value))
                      && RunsAll(start, prefix + r.value, g.triggers)
                      && g.Snapshot() == EffAll(start, prefix + r.value)
    ensures |g.manaAnswers| <= old(|g.manaAnswers|)
    decreases |g.manaAnswers|, 2, 0, 2
  {
    var kids: seq<Node> := [];
    assert prefix + kids == prefix;
    while |kids| < |plan| && (kids == [] || kids[|kids| - 1].ok)
      invariant |kids| <= |plan| && Events(kids) == plan[..|kids|]
      invariant forall j :: 0 <= j < |kids| - 1 ==> kids[j].ok
      invariant RunsAll(start, prefix + kids, g.triggers) && g.Snapshot() == EffAll(start, prefix + kids)
      invariant |g.manaAnswers| <= old(|g.manaAnswers|)
    {
      var c := NextStep(g, start, prefix, kids, plan, |kids|);
      if c.Err? {
        return Err(c.fault);
      }
      OkSnoc(kids, c.value);
      kids := kids + [c.value];
    }
    UntilFailDone(plan, kids);
    return Ok(kids);
  }

  /** The steps before the last stay successful when one more is pushed after a success. */
  lemma OkSnoc(kids: seq<Node>, c: Node)
    requires kids == [] || kids[|kids| - 1].ok
    requires forall j :: 0 <= j < |kids| - 1 ==> kids[j].ok
    ensures forall j :: 0 <= j < |kids + [c]| - 1 ==> (kids + [c])[j].ok
  {
  }

  /** A plan followed until all its steps are pushed or one fails was completed or stopped. */
  lemma UntilFailDone(plan: seq<Event>, kids: seq<Node>)
    requires |kids| <= |plan| && Events(kids) == plan[..|kids|]
    requires forall j :: 0 <= j < |kids| - 1 ==> kids[j].ok
    requires !(|kids| < |plan| && (kids == [] || kids[|kids| - 1].ok))
    ensures Completed(plan, kids) || Stopped(plan, kids)
  {
    if |kids| == |plan| {
      assert plan[..|kids|] == plan;
    }
  }

  /** The `i`th step of a plan pushed after the steps so far. */
  method NextStep(g: Game, ghost start: State, prefix: seq<Node>, kids: seq<Node>, plan: seq<Event>, i: nat)
    returns (r: Result<Node>)
    requires i < |plan| && PlanStep(plan[i]) && Events(kids) == plan[..i]
    requires RunsAll(start, prefix + kids, g.triggers) && g.Snapshot() == EffAll(start, prefix + kids)
    modifies g
    ensures r.Ok? ==> && Events(kids + [r.value]) == plan[..i + 1]
                      && RunsAll(start, prefix + (kids + [r.value]), g.triggers)
                      && g.Snapshot() == EffAll(start, prefix + (kids + [r.value]))
    ensures |g.manaAnswers| <= old(|g.manaAnswers|)
    decreases |g.manaAnswers|, 2, 0, 1
  {
    r := Step(g, start, prefix + kids, plan[i]);
    if r.Ok? {
      KidSnoc(prefix, kids, r.value, plan, i);
    }
  }

  /** An activation's plan is made of steps. */
  lemma ActivationSteps(source: Oid, a: Ability)
    ensures forall i :: 0 <= i < |ActivationPlan(source, a)| ==> PlanStep(ActivationPlan(source, a)[i])
  {
    var d := if a.isMana then [] else [GenerateAbilityObjectEvent(source, a.resolution)] + Declares(source, a.resolution.targets);
    var b := Bound(source, a.costs);
    assert ActivationPlan(source, a) == d + b;
    forall i | 0 <= i < |d + b| ensures PlanStep((d + b)[i]) {
      if i < |d| {
        if !a.isMana && i > 0 {
          assert d[i] == Declares(source, a.resolution.targets)[i - 1];
        }
      } else {
        assert (d + b)[i] == b[i - |d|];
      }
    }
  }

  /** A cast's plan after the move is made of steps. */
  lemma CastSteps(source: Oid, obj: MtgObject)
    ensures forall i :: 0 <= i < |CastPlan(source, obj)| ==> PlanStep(CastPlan(source, obj)[i])
  {
    var d := Declares(source, obj.targets);
    var b := Bound(source, obj.costs);
    forall i | 0 <= i < |d + b| ensures PlanStep((d + b)[i]) {
      if i >= |d| {
        assert (d + b)[i] == b[i - |d|];
      }
    }
  }

  /** The events a mana ability resolves to are no bigger than its resolution. */
  lemma {:induction false} ResolutionSize(source: Oid, effs: seq<Effect>, targets: seq<TargetId>, es: seq<Event>)
    requires |es| == |effs| && forall i :: 0 <= i < |effs| ==> es[i] == EffectEvent(source, effs[i], targets)
    ensures EventsSize(es) == EffectsSize(effs)
    decreases effs
  {
    if effs != [] {
      var k := |effs| - 1;
      ResolutionSize(source, effs[..k], targets, es[..k]);
    }
  }

  /**
   * `ActivateAbilityEvent`: unless the ability is a mana ability, the
   * ability object goes on the stack and every target is declared; then
   * every cost is paid. A failed step ends the activation, reverting what
   * was pushed. A mana ability then pushes its resolution's events, which
   * is a fault when a target is undeclared.
   */
  method ApplyActivate(g: Game, e: Event) returns (r: Result<Node>)
    requires e.ActivateAbilityEvent?
    modifies g
    ensures Applied(old(g.Snapshot()), e, r, g.Snapshot(), g.triggers)
    ensures |g.manaAnswers| <= old(|g.manaAnswers|)
    decreases |g.manaAnswers|, 3, EventSize(e), 1
  {
    ghost var s := g.Snapshot();
    var src, a := e.source, e.ability;
    var plan := ActivationPlan(src, a);
    ActivationSteps(src, a);
    var kids := ApplyUntilFail(g, s, [], plan);
    if kids.Err? {
      return Err(kids.fault);
    }
    var core := kids.value;
    assert [] + core == core;
    if !Completed(plan, core) {
      r := ActivateStopped(g, s, e, core);
    } else if a.isMana {
      r := ActivateMana(g, s, e, core);
    } else {
      var n0 := Node(e, true, NoDetail, core, false);
      ActivateShaped(s, n0);
      assert Eff(s, n0) == EffAll(s, core);
      r := Finish(g, s, n0);
    }
  }

  /** An activation whose plan stopped at a failed step: what was pushed is reverted when more than one step was, or for a mana ability. */
  method ActivateStopped(g: Game, ghost s: State, e: Event, core: seq<Node>) returns (r: Result<Node>)
    requires e.ActivateAbilityEvent? && Stopped(ActivationPlan(e.source, e.ability), core)
    requires RunsAll(s, core, g.triggers) && g.Snapshot() == EffAll(s, core)
    modifies g
    ensures Applied(s, e, r, g.Snapshot(), g.triggers)
    ensures g.manaAnswers == old(g.manaAnswers)
  {
    var reverted := e.ability.isMana || |core| > 1;
    if reverted {
      RevertAll(g, core);
    }
    var n0 := Node(e, false, NoDetail, core, reverted);
    ActivateShaped(s, n0);
    assert Eff(s, n0) == if reverted then UndoAll(EffAll(s, core), core) else EffAll(s, core);
    r := Finish(g, s, n0);
  }

  /** The outcomes of an activation that pushes nothing after its plan. */
  lemma ActivateShaped(s: State, n: Node)
    requires n.event.ActivateAbilityEvent?
    requires var plan := ActivationPlan(n.event.source, n.event.ability);
      || (n.ok && !n.revertedAll && !n.event.ability.isMana && Completed(plan, n.attempts))
      || (!n.ok && Stopped(plan, n.attempts) && (n.revertedAll <==> n.event.ability.isMana || |n.attempts| > 1))
    ensures Local(s, n) && CoreShaped(s, n, n.attempts) && Start(s, n) == s
  {
    if n.ok {
      assert n.attempts[..|n.attempts|] == n.attempts;
    }
  }

  /** A mana ability whose costs are paid pushes the events of its resolution. */
  method ActivateMana(g: Game, ghost s: State, e: Event, core: seq<Node>) returns (r: Result<Node>)
    requires e.ActivateAbilityEvent? && e.ability.isMana
    requires Completed(ActivationPlan(e.source, e.ability), core)
    requires RunsAll(s, core, g.triggers) && g.Snapshot() == EffAll(s, core)
    modifies g
    ensures Applied(s, e, r, g.Snapshot(), g.triggers)
    ensures ResolutionEvents(e.source, e.ability.resolution, old(g.targets)).Err? ==> r == Err(InvalidOperationException)
    ensures |g.manaAnswers| <= old(|g.manaAnswers|)
    decreases |g.manaAnswers|, 3, EventSize(e), 0
  {
    var src, a := e.source, e.ability;
    var evs := ResolutionEvents(src, a.resolution, g.targets);
    if evs.Err? {
      return Err(evs.fault);
    }
    ResolutionSize(src, a.resolution.effects, a.resolution.targets, evs.value);
    var more := ApplyAll(g, s, core, evs.value);
    if more.Err? {
      return Err(more.fault);
    }
    ghost var plan := ActivationPlan(src, a);
    assert (core + more.value)[..|plan|] == core && (core + more.value)[|plan|..] == more.value;
    r := Finish(g, s, Node(e, true, NoDetail, core + more.value, false));
  }

  /** A successful move followed by a plan run through is the whole cast plan run through. */
  lemma PlanCons(c: Node, plan: seq<Event>, kids: seq<Node>)
    requires c.ok && (Completed(plan, kids) || Stopped(plan, kids))
    ensures Completed(plan, kids) ==> Completed([c.event] + plan, [c] + kids)
    ensures !Completed(plan, kids) ==> Stopped([c.event] + plan, [c] + kids)
  {
    assert Events([c] + kids) == [c.event] + Events(kids);
    if !Completed(plan, kids) {
      assert ([c.event] + plan)[..|kids| + 1] == [c.event] + plan[..|kids|];
    }
  }

  /** A move leaves the objects as they were. */
  lemma MoveObjects(s: State, c: Node, trig: Event -> seq<TriggerEntry>)
    requires Runs(s, c, trig) && c.event.MoveZoneEvent? && c.ok
    ensures Eff(s, c).objects == s.objects
  {
    PrimitiveShape(s, c, trig);
    PushesEff(OwnEffect(s, c), c.attempts, trig);
  }

  /**
   * `CastSpellEvent`: the card moves to the stack, and the cast fails with
   * nothing else pushed if it cannot; then every target is declared and
   * every cost paid, and a failed step reverts everything pushed.
   */
  method ApplyCast(g: Game, e: Event) returns (r: Result<Node>)
    requires e.CastSpellEvent?
    modifies g
    ensures Applied(old(g.Snapshot()), e, r, g.Snapshot(), g.triggers)
    ensures var m := MoveZoneEvent(FindZone(old(g.Snapshot()), e.source), StackZone, e.source);
            var f := PrimFault(old(g.Snapshot()), m, g.targetSpecs, old(g.targetAnswers), g.triggers);
            && (f.Some? ==> r == Err(f.value))
            && (f.None? && !OwnOk(old(g.Snapshot()), m, g.targetSpecs, old(g.targetAnswers)) ==> r.Ok? && !r.value.ok)
            && (f.None? && OwnOk(old(g.Snapshot()), m, g.targetSpecs, old(g.targetAnswers)) && e.source !in old(g.objects) ==>
                  r == Err(KeyNotFoundException))
    ensures |g.manaAnswers| <= old(|g.manaAnswers|)
    decreases |g.manaAnswers|, 3, EventSize(e), 1
  {
    ghost var s := g.Snapshot();
    var src := e.source;
    var c0 := PrimChild(g, s, [], MoveZoneEvent(FindZone(g.Snapshot(), src), StackZone, src));
    if c0.Err? {
      return Err(c0.fault);
    }
    var c := c0.value;
    assert [] + [c] == [c];
    if !c.ok {
      r := Finish(g, s, Node(e, false, NoDetail, [c], false));
      return;
    }
    MoveObjects(s, c, g.triggers);
    if src !in g.objects {
      return Err(KeyNotFoundException);
    }
    var plan := CastPlan(src, g.objects[src]);
    CastSteps(src, g.objects[src]);
    var kids := ApplyUntilFail(g, s, [c], plan);
    if kids.Err? {
      return Err(kids.fault);
    }
    var core := [c] + kids.value;
    PlanCons(c, plan, kids.value);
    if Completed(plan, kids.value) {
      r := Finish(g, s, Node(e, true, NoDetail, core, false));
    } else {
      RevertAll(g, core);
      r := Finish(g, s, Node(e, false, NoDetail, core, true));
    }
  }

  // ----------------------------------------------------------------------
  // Costs
  // ----------------------------------------------------------------------

  /** `PushChild` of a cost bound to `source`. */
  method CostChild(g: Game, ghost start: State, attempts: seq<Node>, source: Oid, c: CostEvent) returns (r: Result<Node>)
    requires RunsAll(start, attempts, g.triggers) && g.Snapshot() == EffAll(start, attempts)
    modifies g
    ensures r.Ok? ==> && r.value.event == BoundCost(source, c)
                      && RunsAll(start, attempts + [r.value], g.triggers)
                      && g.Snapshot() == EffAll(start, attempts + [r.value])
    ensures |g.manaAnswers| <= old(|g.manaAnswers|)
    decreases |g.manaAnswers|, 1, CostSize(c), 2
  {
    r := ApplyCost(g, source, c);
    if r.Ok? {
      RunsSnoc(start, attempts, r.value, g.triggers);
    }
  }

  /** Applying a cost bound to `source` (`SetSource`, then `Apply`). */
  method ApplyCost(g: Game, source: Oid, c: CostEvent) returns (r: Result<Node>)
    modifies g
    ensures Applied(old(g.Snapshot()), BoundCost(source, c), r, g.Snapshot(), g.triggers)
    ensures c.TapSelfCost? ==> FaultsAs(r, SimpleFault(old(g.Snapshot()), BoundCost(source, c), g.targetSpecs, old(g.targetAnswers), g.triggers))
    ensures |g.manaAnswers| <= old(|g.manaAnswers|)
    decreases |g.manaAnswers|, 1, CostSize(c), 1
  {
    match c
    case TapSelfCost => r := ApplyTapSelf(g, source);
    case PayManaCost(m) => r := ApplyPayMana(g, source, m);
    case CostContainer(cs) => r := ApplyCostContainer(g, source, cs);
  }

  /** `TapSelfCostEvent`: pushes a tap of the source and succeeds when the tap does. */
  method ApplyTapSelf(g: Game, source: Oid) returns (r: Result<Node>)
    modifies g
    ensures Applied(old(g.Snapshot()), BoundCost(source, TapSelfCost), r, g.Snapshot(), g.triggers)
    ensures FaultsAs(r, SimpleFault(old(g.Snapshot()), BoundCost(source, TapSelfCost), g.targetSpecs, old(g.targetAnswers), g.triggers))
    ensures g.manaAnswers == old(g.manaAnswers)
  {
    ghost var s := g.Snapshot();
    var c := PrimChild(g, s, [], TapEvent(source));
    if c.Err? {
      return Err(c.fault);
    }
    assert [] + [c.value] == [c.value];
    r := Finish(g, s, Node(BoundCost(source, TapSelfCost), c.value.ok, NoDetail, [c.value], false));
  }

  /**
   * `MTGCostEventContainer`: refused when empty; otherwise every cost
   * pushed in turn, and a success when all of them succeeded.
   */
  method ApplyCostContainer(g: Game, source: Oid, cs: seq<CostEvent>) returns (r: Result<Node>)
    modifies g
    ensures Applied(old(g.Snapshot()), BoundCost(source, CostContainer(cs)), r, g.Snapshot(), g.triggers)
    ensures cs == [] ==> r.Ok? && !r.value.ok
    ensures |g.manaAnswers| <= old(|g.manaAnswers|)
    decreases |g.manaAnswers|, 1, CostSize(CostContainer(cs)), 0
  {
    ghost var s := g.Snapshot();
    var e := BoundCost(source, CostContainer(cs));
    if cs == [] {
      r := Finish(g, s, Node(e, false, NoDetail, [], false));
      return;
    }
    var plan := Bound(source, cs);
    var kids: seq<Node> := [];
    var i := 0;
    while i < |cs|
      invariant 0 <= i <= |cs| && |kids| == i && Events(kids) == plan[..i]
      invariant RunsAll(s, kids, g.triggers) && g.Snapshot() == EffAll(s, kids)
      invariant |g.manaAnswers| <= old(|g.manaAnswers|)
    {
      var c := NextCost(g, s, kids, source, cs, i);
      if c.Err? {
        return Err(c.fault);
      }
      kids := kids + [c.value];
      i := i + 1;
    }
    assert plan[..i] == plan;
    var ok := forall j | 0 <= j < |kids| :: kids[j].ok;
    r := Finish(g, s, Node(e, ok, NoDetail, kids, false));
  }

  /** What one answer to a mana payment pushes: a removal from the pool, or a mana ability's activation. */
  method PayChild(g: Game, ghost s: State, core: seq<Node>, p: int, answer: ManaAnswer) returns (r: Result<Node>)
    requires !answer.CancelPayment?
    requires RunsAll(s, core, g.triggers) && g.Snapshot() == EffAll(s, core)
    modifies g
    ensures r.Ok? ==> && RunsAll(s, core + [r.value], g.triggers)
                      && g.Snapshot() == EffAll(s, core + [r.value])
                      && r.value.event == if answer.UseMana? then RemoveManaEvent(p, answer.mana)
                                          else ActivateAbilityEvent(answer.abilitySource, answer.ability)
    ensures |g.manaAnswers| <= old(|g.manaAnswers|)
    decreases |g.manaAnswers| + 1, 0, 0, 0
  {
    if answer.UseMana? {
      r := PrimChild(g, s, core, RemoveManaEvent(p, answer.mana));
    } else {
      r := Child(g, s, core, ActivateAbilityEvent(answer.abilitySource, answer.ability));
    }
  }

  /** The `i`th cost of a container pushed after the costs so far. */
  method NextCost(g: Game, ghost s: State, kids: seq<Node>, source: Oid, cs: seq<CostEvent>, i: nat)
    returns (r: Result<Node>)
    requires i < |cs| && Events(kids) == Bound(source, cs)[..i]
    requires RunsAll(s, kids, g.triggers) && g.Snapshot() == EffAll(s, kids)
    modifies g
    ensures r.Ok? ==> && Events(kids + [r.value]) == Bound(source, cs)[..i + 1]
                      && RunsAll(s, kids + [r.value], g.triggers)
                      && g.Snapshot() == EffAll(s, kids + [r.value])
    ensures |g.manaAnswers| <= old(|g.manaAnswers|)
    decreases |g.manaAnswers|, 1, CostsSize(cs), 3
  {
    CostsSizeBound(cs, i);
    r := CostChild(g, s, kids, source, cs[i]);
    if r.Ok? {
      KidSnoc([], kids, r.value, Bound(source, cs), i);
    }
  }

  /**
   * `PayManaCostEvent`: the controller of the source pays one symbol.
   * Each round takes the next answer: a cancel reverts everything pushed
   * and fails; spending a symbol pushes its removal from the pool and ends
   * the payment; activating a mana ability pushes that activation and asks
   * again. A failed push reverts everything pushed and fails. Before each
   * choice every symbol of the pool is tested with `CanThisPayForMe`, which
   * throws for a cost symbol of two or more colours.
   */
  method ApplyPayMana(g: Game, source: Oid, mana: ManaSymbol) returns (r: Result<Node>)
    modifies g
    ensures Applied(old(g.Snapshot()), BoundCost(source, PayManaCost(mana)), r, g.Snapshot(), g.triggers)
    ensures source !in old(g.objects) ==> r == Err(KeyNotFoundException)
    ensures source in old(g.objects) && !(0 <= old(g.objects)[source].attr.controller < |old(g.players)|) ==>
              r == Err(ArgumentOutOfRangeException)
    ensures source in old(g.objects) && 0 <= old(g.objects)[source].attr.controller < |old(g.players)| &&
            ColorCount(mana.color) > 1 && old(g.players)[old(g.objects)[source].attr.controller].pool != [] ==>
              r == Err(ArgumentException)
    ensures |g.manaAnswers| <= old(|g.manaAnswers|)
    decreases |g.manaAnswers|, 1, CostSize(PayManaCost(mana)), 0
  {
    ghost var s := g.Snapshot();
    var e := BoundCost(source, PayManaCost(mana));
    if source !in g.objects {
      return Err(KeyNotFoundException);
    }
    var p := g.objects[source].attr.controller;
    if !(0 <= p < |g.players|) {
      return Err(ArgumentOutOfRangeException);
    }
    var core: seq<Node> := [];
    while true
      invariant forall j :: 0 <= j < |core| ==> core[j].ok && core[j].event.ActivateAbilityEvent?
      invariant RunsAll(s, core, g.triggers) && g.Snapshot() == EffAll(s, core)
      invariant |g.manaAnswers| <= old(|g.manaAnswers|)
      invariant ColorCount(mana.color) > 1 && s.players[p].pool != [] ==> core == []
      decreases |g.manaAnswers|
    {
      EffAllPlayers(s, core);
      // `CanThisPayForMe` on each symbol of the pool, before the choice
      if ColorCount(mana.color) > 1 && g.players[p].pool != [] {
        return Err(ArgumentException);
      }
      var answer := g.NextManaAnswer();
      if answer.CancelPayment? {
        r := PayCancelled(g, s, source, mana, p, core);
        return;
      }
      var c := PayChild(g, s, core, p, answer);
      if c.Err? {
        return Err(c.fault);
      }
      if !c.value.ok || answer.UseMana? {
        r := PayEnded(g, s, source, mana, p, core, c.value);
        return;
      }
      core := core + [c.value];
    }
  }

  /** A cancelled mana payment: everything pushed is reverted and the payment fails. */
  method PayCancelled(g: Game, ghost s: State, source: Oid, mana: ManaSymbol, p: int, core: seq<Node>) returns (r: Result<Node>)
    requires source in s.objects && p == s.objects[source].attr.controller && 0 <= p < |s.players|
    requires forall j :: 0 <= j < |core| ==> core[j].ok && core[j].event.ActivateAbilityEvent?
    requires RunsAll(s, core, g.triggers) && g.Snapshot() == EffAll(s, core)
    modifies g
    ensures Applied(s, BoundCost(source, PayManaCost(mana)), r, g.Snapshot(), g.triggers)
    ensures g.manaAnswers == old(g.manaAnswers)
  {
    r := PayOutcome(g, s, Node(BoundCost(source, PayManaCost(mana)), false, NoDetail, core, true), p);
  }

  /**
   * A mana payment ended by a failed push or by spending a symbol: a
   * success when the symbol was spent, and otherwise everything pushed is
   * reverted.
   */
  method PayEnded(g: Game, ghost s: State, source: Oid, mana: ManaSymbol, p: int, core: seq<Node>, c: Node)
    returns (r: Result<Node>)
    requires source in s.objects && p == s.objects[source].attr.controller && 0 <= p < |s.players|
    requires forall j :: 0 <= j < |core| ==> core[j].ok && core[j].event.ActivateAbilityEvent?
    requires c.event.ActivateAbilityEvent? || (c.event.RemoveManaEvent? && c.event.player == p)
    requires c.ok ==> c.event.RemoveManaEvent?
    requires RunsAll(s, core + [c], g.triggers) && g.Snapshot() == EffAll(s, core + [c])
    modifies g
    ensures Applied(s, BoundCost(source, PayManaCost(mana)), r, g.Snapshot(), g.triggers)
    ensures g.manaAnswers == old(g.manaAnswers)
  {
    var paid := core + [c];
    assert forall j :: 0 <= j < |paid| - 1 ==> paid[j] == core[j];
    r := PayOutcome(g, s, Node(BoundCost(source, PayManaCost(mana)), c.ok, NoDetail, paid, !c.ok), p);
  }

  /** The end of a mana payment: everything pushed is reverted when it failed. */
  method PayOutcome(g: Game, ghost s: State, n0: Node, p: int) returns (r: Result<Node>)
    requires n0.event.BoundCost? && n0.event.cost.PayManaCost?
    requires n0.event.source in s.objects && p == s.objects[n0.event.source].attr.controller && 0 <= p < |s.players|
    requires var core := n0.attempts;
      && (forall j :: 0 <= j < |core| - 1 ==> core[j].ok && core[j].event.ActivateAbilityEvent?)
      && (|core| > 0 ==> core[|core| - 1].event.ActivateAbilityEvent?
                         || (core[|core| - 1].event.RemoveManaEvent? && core[|core| - 1].event.player == p))
      && (n0.ok <==> |core| > 0 && core[|core| - 1].ok && core[|core| - 1].event.RemoveManaEvent?)
      && (n0.revertedAll <==> !n0.ok)
    requires RunsAll(s, n0.attempts, g.triggers) && g.Snapshot() == EffAll(s, n0.attempts)
    modifies g
    ensures Applied(s, n0.event, r, g.Snapshot(), g.triggers)
    ensures g.manaAnswers == old(g.manaAnswers)
  {
    if n0.revertedAll {
      RevertAll(g, n0.attempts);
    }
    PayShaped(s, n0, p);
    assert Eff(s, n0) == if n0.revertedAll then UndoAll(EffAll(s, n0.attempts), n0.attempts) else EffAll(s, n0.attempts);
    r := Finish(g, s, n0);
  }

  /** The outcomes of a mana payment by player `p`, the controller of its source. */
  lemma PayShaped(s: State, n: Node, p: int)
    requires n.event.BoundCost? && n.event.cost.PayManaCost?
    requires n.event.source in s.objects && p == s.objects[n.event.source].attr.controller && 0 <= p < |s.players|
    requires var core := n.attempts;
      && (forall j :: 0 <= j < |core| - 1 ==> core[j].ok && core[j].event.ActivateAbilityEvent?)
      && (|core| > 0 ==> core[|core| - 1].event.ActivateAbilityEvent?
                         || (core[|core| - 1].event.RemoveManaEvent? && core[|core| - 1].event.player == p))
      && (n.ok <==> |core| > 0 && core[|core| - 1].ok && core[|core| - 1].event.RemoveManaEvent?)
      && (n.revertedAll <==> !n.ok)
    ensures Local(s, n) && CoreShaped(s, n, n.attempts) && Start(s, n) == s
  {
  }

  // ----------------------------------------------------------------------
  // Entry points
  // ----------------------------------------------------------------------

  /**
   * `ResolutionAbility.Resolve`: a fault when a target is undeclared;
   * otherwise one effect event pushed per effect, in order.
   */
  method Resolve(g: Game, source: Oid, res: Resolution) returns (r: Result<seq<Node>>)
    modifies g
    ensures ResolutionEvents(source, res, old(g.targets)).Err? ==> r == Err(InvalidOperationException)
    ensures r.Ok? ==> && ResolutionEvents(source, res, old(g.targets)) == Ok(Events(r.value))
                      && RunsAll(old(g.Snapshot()), r.value, g.triggers)
                      && g.Snapshot() == EffAll(old(g.Snapshot()), r.value)
  {
    ghost var s := g.Snapshot();
    var evs := ResolutionEvents(source, res, g.targets);
    if evs.Err? {
      return Err(evs.fault);
    }
    r := ApplyAll(g, s, [], evs.value);
    if r.Ok? {
      assert [] + r.value == r.value;
    }
  }

  /**
   * `MTGEvent.Apply` followed, on a success, by `MTGEvent.Revert`: on a
   * consistent state, when no step of the application is one that cannot
   * be taken back, the game holds the same things as before.
   */
  method ApplyThenRevert(g: Game, e: Event) returns (r: Result<Node>)
    requires Consistent(g.Snapshot())
    modifies g
    ensures r.Ok? ==> r.value.event == e && Runs(old(g.Snapshot()), r.value, g.triggers)
    ensures Simple(e) ==> FaultsAs(r, SimpleFault(old(g.Snapshot()), e, g.targetSpecs, old(g.targetAnswers), g.triggers))
    ensures r.Ok? && Clean(r.value) ==> Same(g.Snapshot(), old(g.Snapshot()))
  {
    ghost var s := g.Snapshot();
    r := Apply(g, e);
    if r.Ok? {
      RevertApplied(g, s, r.value);
    }
  }

  /** The revert of a successful application: a clean one puts the game back as it was. */
  method RevertApplied(g: Game, ghost s: State, n: Node)
    requires Consistent(s) && Runs(s, n, g.triggers) && g.Snapshot() == Eff(s, n)
    modifies g
    ensures Clean(n) ==> Same(g.Snapshot(), s)
  {
    if n.ok {
      Revert(g, n);
    }
    if Clean(n) {
      Net(s, n, g.triggers);
      SameSymmetric(s, g.Snapshot());
    }
  }
}
