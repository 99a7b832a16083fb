/**
 * The record an applied event leaves behind, and what it means.
 *
 * Applying an event either fails or succeeds, and on the way it pushes
 * child events, each applied in turn. A `Node` records one application:
 * the event, its outcome, every child it attempted in order (failed ones
 * included, although only the successful ones are kept as children), and
 * whether it reverted all its children before failing. `Eff` is the state
 * change an application makes, `Undo` is what `Revert` then does, `Runs`
 * says that a node is what applying its event in a state produces, and
 * `Net` is the revert symmetry: a successful application followed by its
 * revert, and a failed application on its own, leave the state the same
 * up to the order of zones, pools and the pending list.
 */
module EventTree {
  import opened Wrappers
  import opened Oids
  import opened Lists
  import opened Mana
  import opened Zones
  import opened Objects
  import opened Targets
  import opened EventTypes
  import opened GameState
  import opened Abilities

  /** What an application had to remember to revert itself. */
  datatype Detail =
    | NoDetail
      /** `GenerateAbilityObjectEvent.objectOID`. */
    | Created(oid: Oid)
      /** The target's state before and after a successful `Declare`. */
    | Declared(before: TargetState, after: TargetState)

  /**
   * One application of `event`: its outcome, the children it attempted in
   * order (the trigger pushes of a success come last), and whether it
   * reverted all of them before failing.
   */
  datatype Node = Node(event: Event, ok: bool, detail: Detail, attempts: seq<Node>, revertedAll: bool)

  // ----------------------------------------------------------------------
  // The events' own actions
  // ----------------------------------------------------------------------

  /** The events whose `ApplyAction` changes the state itself rather than through children. */
  predicate HasOwnChange(e: Event)
  {
    || e.TapEvent? || e.UntapEvent? || e.AddManaEvent? || e.RemoveManaEvent? || e.MoveZoneEvent?
    || e.GainLifeEvent? || e.LoseLifeEvent? || e.PushTriggeredAbilityEvent?
    || e.GenerateAbilityObjectEvent? || e.DeclareTargetEvent?
  }

  /** The state change of a successful `ApplyAction`, children aside. */
  function OwnEffect(s: State, n: Node): State
  {
    match n.event
    case TapEvent(o) => TapStep(s, o, true).1
    case UntapEvent(o) => TapStep(s, o, false).1
    case AddManaEvent(p, m) => AddManaStep(s, p, m).1
    case RemoveManaEvent(p, m) => RemoveManaStep(s, p, m).1
    case MoveZoneEvent(from, to, o) => if from.Some? then MoveStep(s, from.value, to, o).1 else s
    case GainLifeEvent(p, a) => LifeStep(s, p, a).1
    case LoseLifeEvent(p, a) => LifeStep(s, p, -a).1
    case PushTriggeredAbilityEvent(e) => PushPendingStep(s, e).1
    case GenerateAbilityObjectEvent(src, res) => CreateStep(s, AbilityObjectOf(src, res)).1
    case DeclareTargetEvent(_, tid) => if n.detail.Declared? then TargetStep(s, tid, n.detail.after).1 else s
    case _ => s
  }

  /** `RevertAction`: the inverse step of each event with an own change; nothing for the others. */
  function OwnRevert(s: State, n: Node): State
  {
    match n.event
    case TapEvent(o) => TapStep(s, o, false).1
    case UntapEvent(o) => TapStep(s, o, true).1
    case AddManaEvent(p, m) => RemoveManaStep(s, p, m).1
    case RemoveManaEvent(p, m) => AddManaStep(s, p, m).1
    case MoveZoneEvent(from, to, o) => if from.Some? then MoveStep(s, to, from.value, o).1 else s
    case GainLifeEvent(p, a) => LifeStep(s, p, -a).1
    case LoseLifeEvent(p, a) => LifeStep(s, p, a).1
    case PushTriggeredAbilityEvent(e) => RemovePendingStep(s, e)
    case GenerateAbilityObjectEvent(_, _) => if n.detail.Created? then DeleteStep(s, n.detail.oid) else s
    case DeclareTargetEvent(_, tid) => TargetStep(s, tid, Undeclared).1
    case _ => s
  }

  /**
   * `SelfRevertable`: a move into or out of a library cannot be reverted,
   * nor can damage; every other event can.
   */
  predicate SelfRevertable(e: Event)
  {
    match e
    case MoveZoneEvent(from, to, _) => !(from.Some? && from.value.LibraryZone?) && !to.LibraryZone?
    case DealDamageEvent(_, _) => false
    case _ => true
  }

  /**
   * `Revertable`: the event itself can be reverted and so can every child
   * it keeps; a node that reverted all its children keeps none.
   */
  predicate Revertable(n: Node)
    decreases n
  {
    && SelfRevertable(n.event)
    && (n.revertedAll || forall i | 0 <= i < |n.attempts| :: n.attempts[i].ok ==> Revertable(n.attempts[i]))
  }

  // ----------------------------------------------------------------------
  // Applying and reverting, as state changes
  // ----------------------------------------------------------------------

  /** The state the children of `n` start from: after its own action when that succeeded. */
  function Start(s: State, n: Node): State
  {
    if n.ok then OwnEffect(s, n) else s
  }

  /** The state change of an application: its own action, its children, and the revert of all of them if it did that. */
  function Eff(s: State, n: Node): State
    decreases n, 1
  {
    var t := EffAll(Start(s, n), n.attempts);
    if n.revertedAll then UndoAll(t, n.attempts) else t
  }

  /** The applications of a list of attempts, in order. */
  function EffAll(s: State, ns: seq<Node>): State
    decreases ns, 0
  {
    if ns == [] then s else Eff(EffAll(s, ns[..|ns| - 1]), ns[|ns| - 1])
  }

  /**
   * `Revert`: a cost reverts its kept children whatever `Revertable` says
   * (its own action is empty); any other event does nothing unless it is
   * revertable, and otherwise reverts its own action, then its children.
   */
  function Undo(s: State, n: Node): State
    decreases n, 1
  {
    if n.event.BoundCost? then Kids(s, n)
    else if !Revertable(n) then s
    else Kids(OwnRevert(s, n), n)
  }

  /** `RevertAllChildren`: the kept children, last to first; none once they were all reverted. */
  function Kids(s: State, n: Node): State
    decreases n, 0
  {
    if n.revertedAll then s else UndoAll(s, n.attempts)
  }

  /** The reverts of the successful attempts of a list, last to first. */
  function UndoAll(s: State, ns: seq<Node>): State
    decreases ns
  {
    if ns == [] then s
    else
      var last := ns[|ns| - 1];
      UndoAll(if last.ok then Undo(s, last) else s, ns[..|ns| - 1])
  }

  // ----------------------------------------------------------------------
  // What applying each event does
  // ----------------------------------------------------------------------

  /** The events of a list of attempts. */
  function Events(ns: seq<Node>): (r: seq<Event>)
    ensures |r| == |ns| && forall i :: 0 <= i < |ns| ==> r[i] == ns[i].event
  {
    seq(|ns|, i requires 0 <= i < |ns| => ns[i].event)
  }

  /** The trigger pushes `CheckTriggers` makes, one per entry. */
  function Pushes(es: seq<TriggerEntry>): (r: seq<Event>)
    ensures |r| == |es| && forall i :: 0 <= i < |es| ==> r[i] == PushTriggeredAbilityEvent(es[i])
  {
    seq(|es|, i requires 0 <= i < |es| => PushTriggeredAbilityEvent(es[i]))
  }

  /** One `DeclareTargetEvent` per target, in order. */
  function Declares(source: Oid, ts: seq<TargetId>): (r: seq<Event>)
    ensures |r| == |ts| && forall i :: 0 <= i < |ts| ==> r[i] == DeclareTargetEvent(source, ts[i])
  {
    seq(|ts|, i requires 0 <= i < |ts| => DeclareTargetEvent(source, ts[i]))
  }

  /** Each cost bound to `source` (`SetSource`), in order. */
  function Bound(source: Oid, cs: seq<CostEvent>): (r: seq<Event>)
    ensures |r| == |cs| && forall i :: 0 <= i < |cs| ==> r[i] == BoundCost(source, cs[i])
  {
    seq(|cs|, i requires 0 <= i < |cs| => BoundCost(source, cs[i]))
  }

  /**
   * What activating an ability pushes before its resolution: for an ability
   * that is not a mana ability, the ability object and one declaration per
   * target; then its costs.
   */
  function ActivationPlan(source: Oid, a: Ability): seq<Event>
  {
    (if a.isMana then [] else [GenerateAbilityObjectEvent(source, a.resolution)] + Declares(source, a.resolution.targets))
    + Bound(source, a.costs)
  }

  /** What casting pushes after the move to the stack: declarations, then costs. */
  function CastPlan(source: Oid, obj: MtgObject): seq<Event>
  {
    Declares(source, obj.targets) + Bound(source, obj.costs)
  }

  /** Every step of a plan was pushed and succeeded. */
  predicate Completed(plan: seq<Event>, core: seq<Node>)
  {
    |core| == |plan| && Events(core) == plan && forall i :: 0 <= i < |core| ==> core[i].ok
  }

  /** A plan followed until its first failed step. */
  predicate Stopped(plan: seq<Event>, core: seq<Node>)
  {
    && 0 < |core| <= |plan|
    && Events(core) == plan[..|core|]
    && (forall i :: 0 <= i < |core| - 1 ==> core[i].ok)
    && !core[|core| - 1].ok
  }

  /**
   * The outcome of an event's own action in `s`, for the events with one;
   * anything else the engine would do there is an exception instead of a
   * node.
   */
  predicate Local(s: State, n: Node)
  {
    && (n.revertedAll ==> !n.ok)
    && match n.event
       case TapEvent(o) =>
         n.ok <==> FindZone(s, o) == Some(BattlefieldZone) && o in s.objects && !s.objects[o].status.tapped
       case UntapEvent(o) =>
         n.ok <==> FindZone(s, o) == Some(BattlefieldZone) && o in s.objects && s.objects[o].status.tapped
       case AddManaEvent(p, m) => n.ok && AddManaStep(s, p, m).0.Ok?
       case RemoveManaEvent(p, m) => RemoveManaStep(s, p, m).0 == Ok(n.ok)
       case MoveZoneEvent(from, to, o) =>
         && (n.ok <==> from.Some? && from.value != to && FindZone(s, o) == from)
         && (n.ok ==> MoveStep(s, from.value, to, o).0.Ok?)
         && (from.None? ==> FindZone(s, o).Some?)
       case GainLifeEvent(p, a) => (n.ok <==> a > 0) && (n.ok ==> 0 <= p < |s.players|)
       case LoseLifeEvent(p, a) => (n.ok <==> a > 0) && (n.ok ==> 0 <= p < |s.players|)
       case PushTriggeredAbilityEvent(e) => n.ok && e !in s.pending
       case GenerateAbilityObjectEvent(_, _) => n.ok && StackZone in s.zones && n.detail == Created(Oid(s.nextOid))
       case DeclareTargetEvent(_, tid) =>
         tid in s.targets && (n.ok ==> n.detail.Declared? && n.detail.before == s.targets[tid])
       case _ => true
  }

  /** The trigger pushes a node ends with: those of a success, except for a trigger push itself. */
  function TriggerPushes(n: Node, trig: Event -> seq<TriggerEntry>): seq<Event>
  {
    if n.ok && !n.event.PushTriggeredAbilityEvent? then Pushes(trig(n.event)) else []
  }

  /**
   * The children each `ApplyAction` pushes in `s` (`core`: the attempts
   * before the trigger pushes), and its outcome.
   */
  predicate CoreShaped(s: State, n: Node, core: seq<Node>)
  {
    match n.event
    case DealDamageEvent(t, a) =>
      !n.revertedAll &&
      if a <= 0 then !n.ok && core == []
      else t.PlayerValue? && n.ok && Events(core) == [LoseLifeEvent(t.player, a)]
    case DrawCardEvent(p) =>
      && !n.revertedAll && 0 <= p < |s.players| && LibraryZone(p) in s.zones
      && var lib := s.zones[LibraryZone(p)];
         if lib == [] then !n.ok && core == []
         else Events(core) == [MoveZoneEvent(Some(LibraryZone(p)), HandZone(p), lib[0])] && n.ok == core[0].ok
    case DiscardCardEvent(o) =>
      !n.revertedAll &&
      (match FindZone(s, o)
       case Some(HandZone(q)) =>
         Events(core) == [MoveZoneEvent(Some(HandZone(q)), GraveyardZone(q), o)] && n.ok == core[0].ok
       case _ => !n.ok && core == [])
    case EffectEvent(_, eff, _) => !n.revertedAll && n.ok && Events(core) == eff.pushes
    case EventContainer(es) =>
      !n.revertedAll && Events(core) == es && (n.ok <==> forall i :: 0 <= i < |core| ==> core[i].ok)
    case PlayLandEvent(src) =>
      && !n.revertedAll
      && Events(core) == [MoveZoneEvent(FindZone(s, src), BattlefieldZone, src)] && n.ok == core[0].ok
    case ActivateAbilityEvent(src, a) =>
      var plan := ActivationPlan(src, a);
      if n.ok then
        && !n.revertedAll && |plan| <= |core| && Completed(plan, core[..|plan|])
        && if a.isMana then ResolutionEvents(src, a.resolution, EffAll(s, core[..|plan|]).targets) == Ok(Events(core[|plan|..]))
           else |core| == |plan|
      else Stopped(plan, core) && (n.revertedAll <==> a.isMana || |core| > 1)
    case CastSpellEvent(src) =>
      && |core| > 0 && core[0].event == MoveZoneEvent(FindZone(s, src), StackZone, src)
      && if !core[0].ok then !n.ok && |core| == 1 && !n.revertedAll
         else
           src in s.objects &&
           var plan := [core[0].event] + CastPlan(src, s.objects[src]);
           if n.ok then !n.revertedAll && Completed(plan, core)
           else Stopped(plan, core) && n.revertedAll
    case BoundCost(src, TapSelfCost) =>
      !n.revertedAll && Events(core) == [TapEvent(src)] && n.ok == core[0].ok
    case BoundCost(src, PayManaCost(_)) =>
      && src in s.objects
      && var p := s.objects[src].attr.controller;
      && 0 <= p < |s.players|
      && (forall i :: 0 <= i < |core| - 1 ==> core[i].ok && core[i].event.ActivateAbilityEvent?)
      && (n.ok <==> |core| > 0 && core[|core| - 1].ok && core[|core| - 1].event.RemoveManaEvent?
                    && core[|core| - 1].event.player == p)
      && (n.revertedAll <==> !n.ok)
      && (|core| > 0 && !n.ok ==> core[|core| - 1].event.ActivateAbilityEvent? || core[|core| - 1].event.RemoveManaEvent?)
    case BoundCost(src, CostContainer(cs)) =>
      !n.revertedAll &&
      if cs == [] then !n.ok && core == []
      else Events(core) == Bound(src, cs) && (n.ok <==> forall i :: 0 <= i < |core| ==> core[i].ok)
    case _ => !n.revertedAll && core == []
  }

  /** The attempts of `n`: what its action pushes, then its trigger pushes. */
  predicate Shaped(s: State, n: Node, trig: Event -> seq<TriggerEntry>)
  {
    var t := TriggerPushes(n, trig);
    var k := |n.attempts| - |t|;
    && 0 <= k
    && Events(n.attempts[k..]) == t
    && CoreShaped(s, n, n.attempts[..k])
  }

  /**
   * `n` is what applying its event in `s` records, when the trigger scan
   * finds the entries `trig` gives: its own outcome, its attempts, and each
   * attempt in turn applied in the state the ones before it left.
   */
  predicate Runs(s: State, n: Node, trig: Event -> seq<TriggerEntry>)
    decreases n, 1
  {
    Local(s, n) && Shaped(s, n, trig) && RunsAll(Start(s, n), n.attempts, trig)
  }

  predicate RunsAll(s: State, ns: seq<Node>, trig: Event -> seq<TriggerEntry>)
    decreases ns, 0
  {
    ns == [] || (RunsAll(s, ns[..|ns| - 1], trig) && Runs(EffAll(s, ns[..|ns| - 1]), ns[|ns| - 1], trig))
  }

  /**
   * The trees the revert symmetry covers: every success can be reverted, a
   * failure that did not revert its children had no successful child, and
   * every declared target was undeclared before (`Reset` leaves a target
   * undeclared, whatever it was).
   */
  predicate Clean(n: Node)
    decreases n
  {
    && (n.ok ==> Revertable(n))
    && (!n.ok && !n.revertedAll ==> forall i :: 0 <= i < |n.attempts| ==> !n.attempts[i].ok)
    && (n.ok && n.event.DeclareTargetEvent? ==> n.detail.Declared? && n.detail.before == Undeclared)
    && forall i :: 0 <= i < |n.attempts| ==> Clean(n.attempts[i])
  }

  // ----------------------------------------------------------------------
  // The invariant is kept
  // ----------------------------------------------------------------------

  lemma EffectTapKeeps(s: State, n: Node)
    requires Consistent(s) && (n.event.TapEvent? || n.event.UntapEvent?)
    ensures Consistent(OwnEffect(s, n)) && Consistent(OwnRevert(s, n))
  {
    TapKeeps(s, n.event.source, true);
    TapKeeps(s, n.event.source, false);
  }

  lemma EffectManaKeeps(s: State, n: Node)
    requires Consistent(s) && (n.event.AddManaEvent? || n.event.RemoveManaEvent?)
    ensures Consistent(OwnEffect(s, n)) && Consistent(OwnRevert(s, n))
  {
    AddManaKeeps(s, n.event.player, n.event.mana);
    RemoveManaKeeps(s, n.event.player, n.event.mana);
  }

  lemma EffectMoveKeeps(s: State, n: Node)
    requires Consistent(s) && n.event.MoveZoneEvent?
    ensures Consistent(OwnEffect(s, n)) && Consistent(OwnRevert(s, n))
  {
    var e := n.event;
    if e.from.Some? {
      MoveKeeps(s, e.from.value, e.to, e.oid);
      MoveKeeps(s, e.to, e.from.value, e.oid);
    }
  }

  lemma EffectLifeKeeps(s: State, n: Node)
    requires Consistent(s) && (n.event.GainLifeEvent? || n.event.LoseLifeEvent?)
    ensures Consistent(OwnEffect(s, n)) && Consistent(OwnRevert(s, n))
  {
    LifeKeeps(s, n.event.player, n.event.amount);
    LifeKeeps(s, n.event.player, -n.event.amount);
  }

  lemma EffectCreateKeeps(s: State, n: Node)
    requires Consistent(s) && n.event.GenerateAbilityObjectEvent?
    ensures Consistent(OwnEffect(s, n)) && Consistent(OwnRevert(s, n))
  {
    var e := n.event;
    assert OwnEffect(s, n) == CreateStep(s, AbilityObjectOf(e.source, e.resolution)).1;
    CreateKeeps(s, AbilityObjectOf(e.source, e.resolution));
    if n.detail.Created? {
      assert OwnRevert(s, n) == DeleteStep(s, n.detail.oid);
      DeleteKeeps(s, n.detail.oid);
    } else {
      assert OwnRevert(s, n) == s;
    }
  }

  /** An event's own action, and its `RevertAction`, keep the state consistent. */
  lemma OwnKeeps(s: State, n: Node)
    requires Consistent(s)
    ensures Consistent(OwnEffect(s, n)) && Consistent(OwnRevert(s, n))
  {
    var e := n.event;
    if e.TapEvent? || e.UntapEvent? {
      EffectTapKeeps(s, n);
    } else if e.AddManaEvent? || e.RemoveManaEvent? {
      EffectManaKeeps(s, n);
    } else if e.MoveZoneEvent? {
      EffectMoveKeeps(s, n);
    } else if e.GainLifeEvent? || e.LoseLifeEvent? {
      EffectLifeKeeps(s, n);
    } else if e.GenerateAbilityObjectEvent? {
      EffectCreateKeeps(s, n);
    } else if e.PushTriggeredAbilityEvent? {
      assert OwnEffect(s, n) == PushPendingStep(s, e.entry).1;
    } else if e.DeclareTargetEvent? {
      assert n.detail.Declared? ==> OwnEffect(s, n) == TargetStep(s, e.tid, n.detail.after).1;
    } else {
      assert OwnEffect(s, n) == s && OwnRevert(s, n) == s;
    }
  }

  /** Applying any recorded tree keeps the state consistent. */
  lemma {:induction false} EffKeeps(s: State, n: Node)
    requires Consistent(s)
    ensures Consistent(Eff(s, n))
    decreases n, 1
  {
    OwnKeeps(s, n);
    EffAllKeeps(Start(s, n), n.attempts);
    if n.revertedAll {
      UndoAllKeeps(EffAll(Start(s, n), n.attempts), n.attempts);
    }
  }

  lemma {:induction false} EffAllKeeps(s: State, ns: seq<Node>)
    requires Consistent(s)
    ensures Consistent(EffAll(s, ns))
    decreases ns, 0
  {
    if ns != [] {
      EffAllKeeps(s, ns[..|ns| - 1]);
      EffKeeps(EffAll(s, ns[..|ns| - 1]), ns[|ns| - 1]);
    }
  }

  /** Reverting any recorded tree keeps the state consistent. */
  lemma {:induction false} UndoKeeps(s: State, n: Node)
    requires Consistent(s)
    ensures Consistent(Undo(s, n))
    decreases n, 1
  {
    if n.event.BoundCost? {
      if !n.revertedAll {
        UndoAllKeeps(s, n.attempts);
      }
    } else if Revertable(n) {
      OwnKeeps(s, n);
      if !n.revertedAll {
        UndoAllKeeps(OwnRevert(s, n), n.attempts);
      }
    }
  }

  lemma {:induction false} UndoAllKeeps(s: State, ns: seq<Node>)
    requires Consistent(s)
    ensures Consistent(UndoAll(s, ns))
    decreases ns, 0
  {
    if ns != [] {
      var last := ns[|ns| - 1];
      if last.ok {
        UndoKeeps(s, last);
      }
      UndoAllKeeps(if last.ok then Undo(s, last) else s, ns[..|ns| - 1]);
    }
  }

  // ----------------------------------------------------------------------
  // The players are never added or removed
  // ----------------------------------------------------------------------

  lemma OwnPlayers(s: State, n: Node)
    ensures |OwnEffect(s, n).players| == |s.players| && |OwnRevert(s, n).players| == |s.players|
  {
    match n.event {
      case TapEvent(_) =>
      case UntapEvent(_) =>
      case AddManaEvent(_, _) =>
      case RemoveManaEvent(_, _) =>
      case MoveZoneEvent(_, _, _) =>
      case GainLifeEvent(_, _) =>
      case LoseLifeEvent(_, _) =>
      case PushTriggeredAbilityEvent(_) =>
      case GenerateAbilityObjectEvent(_, _) =>
      case DeclareTargetEvent(_, _) =>
      case _ =>
    }
  }

  lemma {:induction false} EffPlayers(s: State, n: Node)
    ensures |Eff(s, n).players| == |s.players|
    decreases n, 1
  {
    OwnPlayers(s, n);
    EffAllPlayers(Start(s, n), n.attempts);
    if n.revertedAll {
      UndoAllPlayers(EffAll(Start(s, n), n.attempts), n.attempts);
    }
  }

  /** No recorded run of events adds or removes a player. */
  lemma {:induction false} EffAllPlayers(s: State, ns: seq<Node>)
    ensures |EffAll(s, ns).players| == |s.players|
    decreases ns, 0
  {
    if ns != [] {
      EffAllPlayers(s, ns[..|ns| - 1]);
      EffPlayers(EffAll(s, ns[..|ns| - 1]), ns[|ns| - 1]);
    }
  }

  lemma {:induction false} UndoPlayers(s: State, n: Node)
    ensures |Undo(s, n).players| == |s.players|
    decreases n, 1
  {
    if n.event.BoundCost? {
      if !n.revertedAll {
        UndoAllPlayers(s, n.attempts);
      }
    } else if Revertable(n) {
      OwnPlayers(s, n);
      if !n.revertedAll {
        UndoAllPlayers(OwnRevert(s, n), n.attempts);
      }
    }
  }

  lemma {:induction false} UndoAllPlayers(s: State, ns: seq<Node>)
    ensures |UndoAll(s, ns).players| == |s.players|
    decreases ns, 0
  {
    if ns != [] {
      var last := ns[|ns| - 1];
      if last.ok {
        UndoPlayers(s, last);
      }
      UndoAllPlayers(if last.ok then Undo(s, last) else s, ns[..|ns| - 1]);
    }
  }

  // ----------------------------------------------------------------------
  // Reverting does the same on states that are the same
  // ----------------------------------------------------------------------

  lemma RevertTapRespects(x: State, y: State, n: Node)
    requires Same(x, y) && (n.event.TapEvent? || n.event.UntapEvent?)
    ensures Same(OwnRevert(x, n), OwnRevert(y, n))
  {
    TapRespects(x, y, n.event.source, n.event.UntapEvent?);
  }

  lemma RevertManaRespects(x: State, y: State, n: Node)
    requires Same(x, y) && (n.event.AddManaEvent? || n.event.RemoveManaEvent?)
    ensures Same(OwnRevert(x, n), OwnRevert(y, n))
  {
    if n.event.AddManaEvent? {
      RemoveManaRespects(x, y, n.event.player, n.event.mana);
    } else {
      AddManaRespects(x, y, n.event.player, n.event.mana);
    }
  }

  lemma RevertMoveRespects(x: State, y: State, n: Node)
    requires Same(x, y) && n.event.MoveZoneEvent?
    ensures Same(OwnRevert(x, n), OwnRevert(y, n))
  {
    var e := n.event;
    if e.from.Some? {
      MoveRespects(x, y, e.to, e.from.value, e.oid);
    }
  }

  lemma RevertLifeRespects(x: State, y: State, n: Node)
    requires Same(x, y) && (n.event.GainLifeEvent? || n.event.LoseLifeEvent?)
    ensures Same(OwnRevert(x, n), OwnRevert(y, n))
  {
    var e := n.event;
    LifeRespects(x, y, e.player, if e.GainLifeEvent? then -e.amount else e.amount);
  }

  lemma RevertPendingRespects(x: State, y: State, n: Node)
    requires Same(x, y) && n.event.PushTriggeredAbilityEvent?
    ensures Same(OwnRevert(x, n), OwnRevert(y, n))
  {
    RemovePendingRespects(x, y, n.event.entry);
  }

  lemma RevertCreateRespects(x: State, y: State, n: Node)
    requires Same(x, y) && n.event.GenerateAbilityObjectEvent?
    ensures Same(OwnRevert(x, n), OwnRevert(y, n))
  {
    if n.detail.Created? {
      DeleteRespects(x, y, n.detail.oid);
    }
  }

  lemma RevertTargetRespects(x: State, y: State, n: Node)
    requires Same(x, y) && n.event.DeclareTargetEvent?
    ensures Same(OwnRevert(x, n), OwnRevert(y, n))
  {
    TargetRespects(x, y, n.event.tid, Undeclared);
  }

  lemma OwnRevertRespects(x: State, y: State, n: Node)
    requires Same(x, y)
    ensures Same(OwnRevert(x, n), OwnRevert(y, n))
  {
    var e := n.event;
    if e.TapEvent? || e.UntapEvent? {
      RevertTapRespects(x, y, n);
    } else if e.AddManaEvent? || e.RemoveManaEvent? {
      RevertManaRespects(x, y, n);
    } else if e.MoveZoneEvent? {
      RevertMoveRespects(x, y, n);
    } else if e.GainLifeEvent? || e.LoseLifeEvent? {
      RevertLifeRespects(x, y, n);
    } else if e.PushTriggeredAbilityEvent? {
      RevertPendingRespects(x, y, n);
    } else if e.GenerateAbilityObjectEvent? {
      RevertCreateRespects(x, y, n);
    } else if e.DeclareTargetEvent? {
      RevertTargetRespects(x, y, n);
    } else {
      assert OwnRevert(x, n) == x && OwnRevert(y, n) == y;
    }
  }

  /** A revert does the same to two states that hold the same things. */
  lemma {:induction false} UndoRespects(x: State, y: State, n: Node)
    requires Same(x, y)
    ensures Same(Undo(x, n), Undo(y, n))
    decreases n, 1
  {
    if n.event.BoundCost? {
      if !n.revertedAll {
        UndoAllRespects(x, y, n.attempts);
      }
    } else if Revertable(n) {
      OwnRevertRespects(x, y, n);
      if !n.revertedAll {
        UndoAllRespects(OwnRevert(x, n), OwnRevert(y, n), n.attempts);
      }
    }
  }

  lemma {:induction false} UndoAllRespects(x: State, y: State, ns: seq<Node>)
    requires Same(x, y)
    ensures Same(UndoAll(x, ns), UndoAll(y, ns))
    decreases ns, 0
  {
    if ns != [] {
      var last := ns[|ns| - 1];
      if last.ok {
        UndoRespects(x, y, last);
      }
      UndoAllRespects(if last.ok then Undo(x, last) else x, if last.ok then Undo(y, last) else y, ns[..|ns| - 1]);
    }
  }

  // ----------------------------------------------------------------------
  // Single actions and their reverts
  // ----------------------------------------------------------------------

  /**
   * A successful own action followed by its `RevertAction` gives back the
   * state, up to order, for every event with an own change except the
   * trigger push (handled with the pending list below).
   */
  lemma OwnRoundTrip(s: State, n: Node)
    requires Consistent(s) && Local(s, n) && n.ok && HasOwnChange(n.event)
    requires !n.event.PushTriggeredAbilityEvent?
    requires n.event.DeclareTargetEvent? ==> n.detail.Declared? && n.detail.before == Undeclared
    ensures Same(OwnRevert(OwnEffect(s, n), n), s)
  {
    var e := n.event;
    if e.TapEvent? || e.UntapEvent? || e.AddManaEvent? || e.RemoveManaEvent? {
      SimpleRoundTrip(s, n);
    } else {
      OtherRoundTrip(s, n);
    }
  }

  lemma SimpleRoundTrip(s: State, n: Node)
    requires Consistent(s) && Local(s, n) && n.ok
    requires n.event.TapEvent? || n.event.UntapEvent? || n.event.AddManaEvent? || n.event.RemoveManaEvent?
    ensures Same(OwnRevert(OwnEffect(s, n), n), s)
  {
    match n.event
    case TapEvent(o) => TapRoundTrip(s, o, true);
    case UntapEvent(o) => TapRoundTrip(s, o, false);
    case AddManaEvent(p, m) => AddManaRoundTrip(s, p, m);
    case RemoveManaEvent(p, m) => RemoveManaRoundTrip(s, p, m);
  }

  lemma OtherRoundTrip(s: State, n: Node)
    requires Consistent(s) && Local(s, n) && n.ok && HasOwnChange(n.event)
    requires n.event.MoveZoneEvent? || n.event.GainLifeEvent? || n.event.LoseLifeEvent?
          || n.event.GenerateAbilityObjectEvent? || n.event.DeclareTargetEvent?
    requires n.event.DeclareTargetEvent? ==> n.detail.Declared? && n.detail.before == Undeclared
    ensures Same(OwnRevert(OwnEffect(s, n), n), s)
  {
    var e := n.event;
    if e.MoveZoneEvent? {
      assert OwnEffect(s, n) == MoveStep(s, e.from.value, e.to, e.oid).1;
      assert OwnRevert(OwnEffect(s, n), n) == MoveStep(OwnEffect(s, n), e.to, e.from.value, e.oid).1;
      MoveRoundTrip(s, e.from.value, e.to, e.oid);
    } else if e.GenerateAbilityObjectEvent? {
      CreateRoundTrip(s, AbilityObjectOf(e.source, e.resolution));
    } else {
      LifeTargetRoundTrip(s, n);
    }
  }

  lemma LifeTargetRoundTrip(s: State, n: Node)
    requires Consistent(s) && Local(s, n) && n.ok
    requires n.event.GainLifeEvent? || n.event.LoseLifeEvent? || n.event.DeclareTargetEvent?
    requires n.event.DeclareTargetEvent? ==> n.detail.Declared? && n.detail.before == Undeclared
    ensures Same(OwnRevert(OwnEffect(s, n), n), s)
  {
    match n.event
    case GainLifeEvent(p, a) => LifeRoundTrip(s, p, a);
    case LoseLifeEvent(p, a) => LifeRoundTrip(s, p, -a);
    case DeclareTargetEvent(_, tid) => TargetRoundTrip(s, tid, n.detail.after);
  }

  /** `RevertAction` of anything but a trigger push leaves the pending list alone. */
  lemma OwnRevertPending(x: State, n: Node, q: seq<TriggerEntry>)
    requires !n.event.PushTriggeredAbilityEvent?
    ensures OwnRevert(x.(pending := q), n) == OwnRevert(x, n).(pending := q)
    ensures OwnRevert(x, n).pending == x.pending
  {
    match n.event
    case TapEvent(o) => TapPending(x, o, false, q);
    case UntapEvent(o) => TapPending(x, o, true, q);
    case AddManaEvent(p, m) => RemoveManaPending(x, p, m, q);
    case RemoveManaEvent(p, m) => AddManaPending(x, p, m, q);
    case MoveZoneEvent(from, to, o) => if from.Some? { MovePending(x, to, from.value, o, q); }
    case GainLifeEvent(p, a) => LifePending(x, p, -a, q);
    case LoseLifeEvent(p, a) => LifePending(x, p, a, q);
    case GenerateAbilityObjectEvent(_, _) => if n.detail.Created? { DeletePending(x, n.detail.oid, q); }
    case DeclareTargetEvent(_, tid) => TargetPending(x, tid, Undeclared, q);
    case _ =>
  }

  // ----------------------------------------------------------------------
  // Trigger pushes
  // ----------------------------------------------------------------------

  predicate AllPushes(ns: seq<Node>)
  {
    forall i :: 0 <= i < |ns| ==> ns[i].event.PushTriggeredAbilityEvent?
  }

  /** The entries a list of trigger pushes adds. */
  function Entries(ns: seq<Node>): (r: seq<TriggerEntry>)
    requires AllPushes(ns)
    ensures |r| == |ns| && forall i :: 0 <= i < |ns| ==> r[i] == ns[i].event.entry
  {
    seq(|ns|, i requires 0 <= i < |ns| => ns[i].event.entry)
  }

  /** Each entry is new: in neither the list `p` nor before it. */
  predicate Fresh(p: seq<TriggerEntry>, es: seq<TriggerEntry>)
  {
    forall i :: 0 <= i < |es| ==> es[i] !in p + es[..i]
  }

  /** Fresh entries stay fresh with one more that is neither pending nor among them. */
  lemma FreshSnoc(p: seq<TriggerEntry>, es: seq<TriggerEntry>, i: nat)
    requires i < |es| && Fresh(p, es[..i]) && es[i] !in p + es[..i]
    ensures Fresh(p, es[..i + 1])
  {
    var q := es[..i + 1];
    forall j | 0 <= j < |q| ensures q[j] !in p + q[..j] {
      assert q[..j] == es[..j];
      if j < i {
        assert es[..i][j] == es[j] && es[..i][..j] == es[..j];
      }
    }
  }

  /** An entry already pending, or repeated, is not fresh. */
  lemma NotFresh(p: seq<TriggerEntry>, es: seq<TriggerEntry>, i: nat)
    requires i < |es| && es[i] in p + es[..i]
    ensures !Fresh(p, es)
  {
  }

  /** Fresh entries split into a fresh front and a back fresh after the front. */
  lemma FreshAppend(p: seq<TriggerEntry>, a: seq<TriggerEntry>, b: seq<TriggerEntry>)
    requires Fresh(p, a + b)
    ensures Fresh(p, a) && Fresh(p + a, b)
  {
    forall i | 0 <= i < |a| ensures a[i] !in p + a[..i] {
      assert (a + b)[i] == a[i] && (a + b)[..i] == a[..i];
    }
    forall i | 0 <= i < |b| ensures b[i] !in p + a + b[..i] {
      assert (a + b)[|a| + i] == b[i] && (a + b)[..|a| + i] == a + b[..i];
      AppendAssoc(p, a, b[..i]);
    }
  }

  /** Trigger pushes as recorded: successes with no children. */
  predicate Plain(ns: seq<Node>)
  {
    forall i :: 0 <= i < |ns| ==> ns[i].ok && ns[i].attempts == [] && !ns[i].revertedAll
  }

  /** A recorded trigger push succeeded with no children and appended its new entry. */
  lemma PushRun(u: State, n: Node, trig: Event -> seq<TriggerEntry>)
    requires Runs(u, n, trig) && n.event.PushTriggeredAbilityEvent?
    ensures n.ok && n.attempts == [] && !n.revertedAll && n.event.entry !in u.pending
    ensures Eff(u, n) == u.(pending := u.pending + [n.event.entry])
  {
    assert Local(u, n);
    assert TriggerPushes(n, trig) == [];
    assert CoreShaped(u, n, n.attempts[..|n.attempts|]);
    assert n.attempts[..|n.attempts|] == n.attempts;
    assert Start(u, n) == PushPendingStep(u, n.event.entry).1;
  }

  /** Applying recorded trigger pushes appends their entries, each of them new. */
  lemma {:induction false} PushesEff(t: State, ns: seq<Node>, trig: Event -> seq<TriggerEntry>)
    requires RunsAll(t, ns, trig) && AllPushes(ns)
    ensures EffAll(t, ns) == t.(pending := t.pending + Entries(ns))
    ensures Fresh(t.pending, Entries(ns)) && Plain(ns)
  {
    if ns != [] {
      var init, last := ns[..|ns| - 1], ns[|ns| - 1];
      assert AllPushes(init) by {
        forall i | 0 <= i < |init| ensures init[i].event.PushTriggeredAbilityEvent? {
          assert init[i] == ns[i];
        }
      }
      PushesEff(t, init, trig);
      var u := EffAll(t, init);
      PushRun(u, last, trig);
      assert Entries(ns) == Entries(init) + [last.event.entry];
      assert Entries(ns)[..|init|] == Entries(init);
      assert t.pending + Entries(ns) == (t.pending + Entries(init)) + [last.event.entry];
    }
  }

  /** Reverting a trigger push without children removes its entry. */
  lemma PushUndo(x: State, n: Node)
    requires n.event.PushTriggeredAbilityEvent? && n.attempts == [] && !n.revertedAll
    ensures Undo(x, n) == RemovePendingStep(x, n.event.entry)
  {
    assert Revertable(n);
    assert Kids(OwnRevert(x, n), n) == UndoAll(OwnRevert(x, n), []);
  }

  /** The entries of a list of trigger pushes are those of all but the last, then the last one's. */
  lemma EntriesSnoc(p: seq<TriggerEntry>, ns: seq<Node>)
    requires AllPushes(ns) && Plain(ns) && Fresh(p, Entries(ns)) && ns != []
    ensures AllPushes(ns[..|ns| - 1]) && Plain(ns[..|ns| - 1])
    ensures Entries(ns) == Entries(ns[..|ns| - 1]) + [ns[|ns| - 1].event.entry]
    ensures Fresh(p, Entries(ns[..|ns| - 1]))
    ensures ns[|ns| - 1].event.entry !in p + Entries(ns[..|ns| - 1])
  {
    var init := ns[..|ns| - 1];
    assert forall i | 0 <= i < |init| :: init[i] == ns[i];
    assert Entries(ns) == Entries(init) + [ns[|ns| - 1].event.entry];
    assert Entries(ns)[..|init|] == Entries(init);
    forall i | 0 <= i < |init| ensures Entries(init)[i] !in p + Entries(init)[..i] {
      assert Entries(init)[..i] == Entries(ns)[..i];
    }
  }

  /** Reverting the last of recorded trigger pushes removes its entry from the end. */
  lemma PushUndoLast(x: State, p: seq<TriggerEntry>, ns: seq<Node>)
    requires AllPushes(ns) && Plain(ns) && Fresh(p, Entries(ns)) && ns != []
    requires x.pending == p + Entries(ns)
    ensures AllPushes(ns[..|ns| - 1]) && Plain(ns[..|ns| - 1]) && Fresh(p, Entries(ns[..|ns| - 1]))
    ensures ns[|ns| - 1].ok
    ensures Undo(x, ns[|ns| - 1]) == x.(pending := p + Entries(ns[..|ns| - 1]))
  {
    var init, last := ns[..|ns| - 1], ns[|ns| - 1];
    var e := last.event.entry;
    EntriesSnoc(p, ns);
    PushUndo(x, last);
    RemoveFirstLast(p + Entries(init), e);
    assert (p + Entries(init)) + [e] == x.pending;
  }

  /** Reverting recorded trigger pushes, last to first, removes their new entries again. */
  lemma {:induction false} PushesUndo(x: State, p: seq<TriggerEntry>, ns: seq<Node>)
    requires AllPushes(ns) && Plain(ns) && Fresh(p, Entries(ns))
    requires x.pending == p + Entries(ns)
    ensures UndoAll(x, ns) == x.(pending := p)
    decreases ns
  {
    if ns != [] {
      var init, last := ns[..|ns| - 1], ns[|ns| - 1];
      PushUndoLast(x, p, ns);
      var y := Undo(x, last);
      assert UndoAll(x, ns) == UndoAll(y, init);
      PushesUndo(y, p, init);
    }
  }

  // ----------------------------------------------------------------------
  // Revert symmetry
  // ----------------------------------------------------------------------

  /** What the revert symmetry promises for one application. */
  ghost predicate Restores(s: State, n: Node)
  {
    && (n.ok ==> Same(Undo(Eff(s, n), n), s))
    && (!n.ok ==> Same(Eff(s, n), s))
  }

  /** A successful event with an own change records only its trigger pushes. */
  lemma PrimitiveShape(s: State, n: Node, trig: Event -> seq<TriggerEntry>)
    requires Runs(s, n, trig) && n.ok && HasOwnChange(n.event)
    ensures AllPushes(n.attempts) && !n.revertedAll
    ensures RunsAll(OwnEffect(s, n), n.attempts, trig)
    ensures Eff(s, n) == EffAll(OwnEffect(s, n), n.attempts)
    ensures n.event.PushTriggeredAbilityEvent? ==> n.attempts == []
  {
    var ns := n.attempts;
    var t := TriggerPushes(n, trig);
    assert Local(s, n) && Shaped(s, n, trig);
    assert CoreShaped(s, n, ns[..|ns| - |t|]);
    assert |ns| == |t| && ns[|ns| - |t|..] == ns;
    forall i | 0 <= i < |ns| ensures ns[i].event.PushTriggeredAbilityEvent? {
      assert Events(ns)[i] == t[i];
    }
  }

  /** The revert of a revertable event that is not a cost: its own revert, then its children's. */
  lemma RevertableUndo(x: State, n: Node)
    requires !n.event.BoundCost? && Revertable(n) && !n.revertedAll
    ensures Undo(x, n) == UndoAll(OwnRevert(x, n), n.attempts)
  {
  }

  /** A successful event with an own change, then its revert, gives back the state. */
  lemma PrimitiveRestores(s: State, n: Node, trig: Event -> seq<TriggerEntry>)
    requires Consistent(s) && Runs(s, n, trig) && Clean(n) && n.ok && HasOwnChange(n.event)
    ensures Same(Undo(Eff(s, n), n), s)
  {
    var ns := n.attempts;
    PrimitiveShape(s, n, trig);
    var s1 := OwnEffect(s, n);
    PushesEff(s1, ns, trig);
    var x := s1.(pending := s1.pending + Entries(ns));
    assert Revertable(n);
    RevertableUndo(x, n);
    if n.event.PushTriggeredAbilityEvent? {
      assert x == s1;
      PendingRoundTrip(s, n.event.entry);
    } else {
      var v := OwnRevert(s1, n);
      OwnRevertPending(s1, n, s1.pending + Entries(ns));
      PushesUndo(OwnRevert(x, n), s1.pending, ns);
      assert Undo(x, n) == v;
      OwnRoundTrip(s, n);
    }
  }

  /**
   * Revert symmetry: in a consistent state, a clean recorded application
   * that succeeded is undone by its revert, and one that failed changed
   * nothing, up to the order of zones, pools and the pending list.
   */
  lemma {:induction false} Net(s: State, n: Node, trig: Event -> seq<TriggerEntry>)
    requires Consistent(s) && Runs(s, n, trig) && Clean(n)
    ensures Restores(s, n)
    decreases n, 1
  {
    if n.ok && HasOwnChange(n.event) {
      PrimitiveRestores(s, n, trig);
    } else if n.ok {
      assert Start(s, n) == s;
      NetAll(s, n.attempts, trig);
    } else if n.revertedAll {
      NetAll(s, n.attempts, trig);
    } else {
      FailAll(s, n.attempts, trig);
    }
  }

  /** Applying a list of clean attempts and reverting the successful ones gives back the state. */
  lemma {:induction false} NetAll(s: State, ns: seq<Node>, trig: Event -> seq<TriggerEntry>)
    requires Consistent(s) && RunsAll(s, ns, trig)
    requires forall i :: 0 <= i < |ns| ==> Clean(ns[i])
    ensures Same(UndoAll(EffAll(s, ns), ns), s)
    decreases ns, 0
  {
    if ns != [] {
      var init, last := ns[..|ns| - 1], ns[|ns| - 1];
      var t := EffAll(s, init);
      EffAllKeeps(s, init);
      Net(t, last, trig);
      NetAll(s, init, trig);
      var x := if last.ok then Undo(Eff(t, last), last) else Eff(t, last);
      UndoAllRespects(x, t, init);
      SameTransitive(UndoAll(x, init), UndoAll(t, init), s);
    }
  }

  /** Clean attempts that all failed changed nothing. */
  lemma {:induction false} FailAll(s: State, ns: seq<Node>, trig: Event -> seq<TriggerEntry>)
    requires Consistent(s) && RunsAll(s, ns, trig)
    requires forall i :: 0 <= i < |ns| ==> Clean(ns[i]) && !ns[i].ok
    ensures Same(EffAll(s, ns), s)
    decreases ns, 0
  {
    if ns != [] {
      var init, last := ns[..|ns| - 1], ns[|ns| - 1];
      var t := EffAll(s, init);
      EffAllKeeps(s, init);
      Net(t, last, trig);
      FailAll(s, init, trig);
      SameTransitive(Eff(t, last), t, s);
    }
  }
}
