/**
 * The state of a game as the events see it (`MTG.Instance`: objects, zones,
 * players, pending triggered abilities, targets), the single state changes
 * the events make, the invariant every change keeps, and the relation under
 * which a change followed by its revert gives back the state it started
 * from.
 */
module GameState {
  import opened Wrappers
  import opened Oids
  import opened Lists
  import opened Mana
  import opened Zones
  import opened Objects
  import opened Targets
  import opened EventTypes
  import opened Players

  /** A player as the game keeps it: life, the loss flag and the mana pool (its zones are the game's). */
  datatype PlayerState = PlayerState(life: int, hasLost: bool, pool: seq<ManaSymbol>)

  /** `new Player()`: starting life, not lost, empty pool. */
  const NewPlayerState := PlayerState(StartingLife, false, [])

  /**
   * What the events read and change. `nextOid` is the next identifier
   * `new OID()` hands out.
   */
  datatype State = State(
    objects: map<Oid, MtgObject>,
    zones: map<ZoneId, seq<Oid>>,
    players: seq<PlayerState>,
    pending: seq<TriggerEntry>,
    targets: map<TargetId, TargetState>,
    nextOid: nat)

  // ----------------------------------------------------------------------
  // Zones of a game and the object lookup
  // ----------------------------------------------------------------------

  /** Whether `z` is a zone of a game of `n` players. */
  predicate IsZoneOf(z: ZoneId, n: nat)
  {
    match z
    case LibraryZone(p) => p < n
    case HandZone(p) => p < n
    case GraveyardZone(p) => p < n
    case _ => true
  }

  /** Each player's library, hand and graveyard, player by player. */
  function PlayerZones(n: nat): (r: seq<ZoneId>)
    ensures forall z :: z in r <==> !z.BattlefieldZone? && !z.StackZone? && !z.ExileZone? && IsZoneOf(z, n)
  {
    if n == 0 then [] else PlayerZones(n - 1) + [LibraryZone(n - 1), HandZone(n - 1), GraveyardZone(n - 1)]
  }

  /** Every zone of an `n`-player game, in the order the object lookup searches them. */
  function ZoneOrder(n: nat): (r: seq<ZoneId>)
    ensures forall z :: z in r <==> IsZoneOf(z, n)
  {
    [BattlefieldZone, StackZone, ExileZone] + PlayerZones(n)
  }

  /** The first zone of `order` that holds `o`. */
  function FindIn(order: seq<ZoneId>, zones: map<ZoneId, seq<Oid>>, o: Oid): (r: Option<ZoneId>)
    ensures r.Some? ==> r.value in order && r.value in zones && o in zones[r.value]
    ensures r.None? <==> forall z :: z in order && z in zones ==> o !in zones[z]
  {
    if order == [] then None
    else if order[0] in zones && o in zones[order[0]] then Some(order[0])
    else FindIn(order[1..], zones, o)
  }

  /** `FindZoneFromOID`: the zone holding the object, or `None` (null) when no zone does. */
  function FindZone(s: State, o: Oid): (r: Option<ZoneId>)
    ensures r.Some? ==> IsZoneOf(r.value, |s.players|) && r.value in s.zones && o in s.zones[r.value]
    ensures r.None? <==> forall z :: IsZoneOf(z, |s.players|) && z in s.zones ==> o !in s.zones[z]
  {
    FindIn(ZoneOrder(|s.players|), s.zones, o)
  }

  // ----------------------------------------------------------------------
  // The state changes events make, each with its outcome
  // ----------------------------------------------------------------------

  /** `objects[o].permanentStatus.tapped = tapped`. */
  function TapStep(s: State, o: Oid, tapped: bool): (Result<()>, State)
  {
    if o !in s.objects then (Err(KeyNotFoundException), s)
    else
      var obj := s.objects[o];
      (Ok(()), s.(objects := s.objects[o := obj.(status := obj.status.(tapped := tapped))]))
  }

  /**
   * `MTG.MoveZone(o, a, b)`: `Remove` from `a`, then `Add` at the front of
   * `b`. When the `Add` is refused the removal has already happened.
   */
  function MoveStep(s: State, a: ZoneId, b: ZoneId, o: Oid): (Result<()>, State)
  {
    if a !in s.zones || b !in s.zones then (Err(KeyNotFoundException), s)
    else
      match ZoneRemove(s.zones[a], o)
      case Err(f) => (Err(f), s)
      case Ok(rest) =>
        var mid := s.zones[a := rest];
        match ZoneAdd(mid[b], o, 0)
        case Err(f) => (Err(f), s.(zones := mid))
        case Ok(added) => (Ok(()), s.(zones := mid[b := added]))
  }

  /** `players[p].manaPool.AddMana(m)`. */
  function AddManaStep(s: State, p: int, m: ManaSymbol): (Result<()>, State)
  {
    if !(0 <= p < |s.players|) then (Err(ArgumentOutOfRangeException), s)
    else
      match PoolAdd(s.players[p].pool, m)
      case Err(f) => (Err(f), s)
      case Ok(pool) => (Ok(()), s.(players := s.players[p := s.players[p].(pool := pool)]))
  }

  /** `players[p].manaPool.RemoveMana(m)`: whether the symbol was there. */
  function RemoveManaStep(s: State, p: int, m: ManaSymbol): (Result<bool>, State)
  {
    if !(0 <= p < |s.players|) then (Err(ArgumentOutOfRangeException), s)
    else
      var (found, pool) := PoolRemove(s.players[p].pool, m);
      (Ok(found), s.(players := s.players[p := s.players[p].(pool := pool)]))
  }

  /** `players[p].ChangeLife(delta)`. */
  function LifeStep(s: State, p: int, delta: int): (Result<()>, State)
  {
    if !(0 <= p < |s.players|) then (Err(ArgumentOutOfRangeException), s)
    else (Ok(()), s.(players := s.players[p := s.players[p].(life := s.players[p].life + delta)]))
  }

  /** `PendingTriggeredAbilities.Add`, refused for an entry already pending. */
  function PushPendingStep(s: State, e: TriggerEntry): (Result<()>, State)
  {
    if e in s.pending then (Err(InvalidOperationException), s)
    else (Ok(()), s.(pending := s.pending + [e]))
  }

  /** `PendingTriggeredAbilities.Remove`. */
  function RemovePendingStep(s: State, e: TriggerEntry): State
  {
    s.(pending := RemoveFirst(s.pending, e))
  }

  /** `CreateObject(obj)` under a fresh identifier, then `theStack.Push` of it. */
  function CreateStep(s: State, obj: MtgObject): (Result<Oid>, State)
  {
    if StackZone !in s.zones then (Err(KeyNotFoundException), s)
    else
      var o := Oid(s.nextOid);
      (Ok(o), s.(objects := s.objects[o := obj],
                 zones := s.zones[StackZone := ZonePush(s.zones[StackZone], o)],
                 nextOid := s.nextOid + 1))
  }

  /** `DeleteObject(o)`: the object, and its identifier in whatever zone lists it. */
  function DeleteStep(s: State, o: Oid): State
  {
    s.(objects := s.objects - {o}, zones := Forget(s.zones, o))
  }

  /** Every occurrence of `o` removed from every zone. */
  function Forget(zones: map<ZoneId, seq<Oid>>, o: Oid): map<ZoneId, seq<Oid>>
  {
    map z | z in zones :: RemoveEvery(zones[z], o)
  }

  /** A target's declaration state replaced (`Declare` or `Reset`). */
  function TargetStep(s: State, tid: TargetId, st: TargetState): (Result<()>, State)
  {
    if tid !in s.targets then (Err(KeyNotFoundException), s)
    else (Ok(()), s.(targets := s.targets[tid := st]))
  }

  /** The object an activated or triggered ability becomes on the stack. */
  function AbilityObjectOf(source: Oid, resolution: Resolution): (o: MtgObject)
    ensures o.kind == AbilityObject(source) && o.targets == resolution.targets
  {
    MtgObject(BaseCardAttributes("", {}, {}, {}, ManaCost([]), 0, 0, 0, 0), DefaultAttributes, DefaultStatus,
              AbilityObject(source), [], resolution.targets)
  }

  // ----------------------------------------------------------------------
  // Loading the libraries
  // ----------------------------------------------------------------------

  /** Library `i`'s cards as the constructor imports them, with the given owner. */
  function WithOwner(cards: seq<BaseCardAttributes>, owner: int): (r: seq<BaseCardAttributes>)
    ensures |r| == |cards|
    ensures forall j :: 0 <= j < |cards| ==> r[j] == cards[j].(owner := owner)
  {
    seq(|cards|, j requires 0 <= j < |cards| => cards[j].(owner := owner))
  }

  /**
   * The constructor's import as written: `playerIndex` is set to 0 at the
   * top of every pass of the library loop, so every card gets owner 0.
   */
  function ImportLibrariesAsWritten(libraries: seq<seq<BaseCardAttributes>>): (r: seq<seq<BaseCardAttributes>>)
    ensures |r| == |libraries|
    ensures forall i :: 0 <= i < |libraries| ==> r[i] == WithOwner(libraries[i], 0)
  {
    seq(|libraries|, i requires 0 <= i < |libraries| => WithOwner(libraries[i], 0))
  }

  /** The import as intended: the cards of library `i` belong to player `i`. */
  function ImportLibraries(libraries: seq<seq<BaseCardAttributes>>): (r: seq<seq<BaseCardAttributes>>)
    ensures |r| == |libraries|
    ensures forall i :: 0 <= i < |libraries| ==> r[i] == WithOwner(libraries[i], i)
  {
    seq(|libraries|, i requires 0 <= i < |libraries| => WithOwner(libraries[i], i))
  }

  /** As written, a second player's card is owned by the first player. */
  lemma ImportOwnerAsWrittenIsWrong(card: BaseCardAttributes)
    ensures ImportLibrariesAsWritten([[], [card]])[1][0].owner == 0
    ensures ImportLibraries([[], [card]])[1][0].owner == 1
  {
  }

  /** As intended, every card is owned by the player whose library it starts in. */
  lemma ImportOwners(libraries: seq<seq<BaseCardAttributes>>, i: int, j: int)
    requires 0 <= i < |libraries| && 0 <= j < |libraries[i]|
    ensures ImportLibraries(libraries)[i][j].owner == i
    ensures ImportLibraries(libraries)[i][j] == libraries[i][j].(owner := i)
    ensures ImportLibrariesAsWritten(libraries)[i][j].owner == 0
  {
  }

  /** The base attributes of the objects a zone lists. */
  function Bases(objects: map<Oid, MtgObject>, ids: seq<Oid>): (r: seq<BaseCardAttributes>)
    requires forall o :: o in ids ==> o in objects
    ensures |r| == |ids| && forall j :: 0 <= j < |ids| ==> r[j] == objects[ids[j]].base
  {
    seq(|ids|, j requires 0 <= j < |ids| => objects[ids[j]].base)
  }

  /** A new game of `n` players: every zone empty, no object, nothing pending. */
  function InitialState(n: nat, targets: map<TargetId, TargetState>): State
  {
    State(map[], map z | z in ZoneOrder(n) :: [], seq(n, _ => NewPlayerState), [], targets, 0)
  }

  /** One card made an object under a fresh identifier and added at the front of library `i`. */
  function LoadStep(s: State, i: nat, card: BaseCardAttributes): State
    requires LibraryZone(i) in s.zones
  {
    var o := Oid(s.nextOid);
    s.(objects := s.objects[o := NewObject(card, [], [])],
       zones := s.zones[LibraryZone(i) := [o] + s.zones[LibraryZone(i)]],
       nextOid := s.nextOid + 1)
  }

  // ----------------------------------------------------------------------
  // The game's invariant, and how each state change keeps it
  // ----------------------------------------------------------------------

  /**
   * Every zone of the game exists and no other; no zone lists an object
   * twice; every listed object exists; identifiers are below the next one
   * to be handed out; pools hold only single-colour symbols.
   */
  ghost predicate Consistent(s: State)
  {
    && ZonesComplete(s.zones, |s.players|)
    && ZonesDistinct(s.zones)
    && ZonesListed(s.zones, s.objects)
    && OidsBelow(s.objects, s.nextOid)
    && PoolsSingle(s.players)
  }

  ghost predicate ZonesComplete(zones: map<ZoneId, seq<Oid>>, n: nat)
  {
    forall z :: z in zones <==> IsZoneOf(z, n)
  }

  ghost predicate ZonesDistinct(zones: map<ZoneId, seq<Oid>>)
  {
    forall z :: z in zones ==> NoDup(zones[z])
  }

  ghost predicate ZonesListed(zones: map<ZoneId, seq<Oid>>, objects: map<Oid, MtgObject>)
  {
    forall z, o :: z in zones && o in zones[z] ==> o in objects
  }

  ghost predicate OidsBelow(objects: map<Oid, MtgObject>, nextOid: nat)
  {
    forall o :: o in objects ==> o.guid < nextOid
  }

  ghost predicate PoolsSingle(players: seq<PlayerState>)
  {
    forall i, m :: 0 <= i < |players| && m in players[i].pool ==> ColorCount(m.color) <= 1
  }

  /** A new game is consistent. */
  lemma InitialConsistent(n: nat, targets: map<TargetId, TargetState>)
    ensures Consistent(InitialState(n, targets))
  {
  }

  /** A fresh identifier is in no zone and names no object. */
  lemma FreshOid(s: State)
    requires Consistent(s)
    ensures Oid(s.nextOid) !in s.objects
    ensures forall z :: z in s.zones ==> Oid(s.nextOid) !in s.zones[z]
  {
  }

  /** A zone replaced by a list without duplicates of existing objects keeps the invariant. */
  lemma ReplaceKeeps(s: State, z: ZoneId, x: seq<Oid>)
    requires Consistent(s) && z in s.zones
    requires NoDup(x) && forall y :: y in x ==> y in s.objects
    ensures Consistent(s.(zones := s.zones[z := x]))
  {
  }

  lemma TapKeeps(s: State, o: Oid, tapped: bool)
    requires Consistent(s)
    ensures Consistent(TapStep(s, o, tapped).1)
  {
  }

  lemma MoveKeeps(s: State, a: ZoneId, b: ZoneId, o: Oid)
    requires Consistent(s)
    ensures Consistent(MoveStep(s, a, b, o).1)
  {
    if a in s.zones && b in s.zones && o in s.zones[a] {
      var rest := RemoveFirst(s.zones[a], o);
      RemoveKeepsNoDup(s.zones[a], o);
      ReplaceKeeps(s, a, rest);
      var t := s.(zones := s.zones[a := rest]);
      var added := ZoneAdd(t.zones[b], o, 0);
      if added.Ok? {
        AddKeepsNoDup(t.zones[b], o, 0);
        forall y | y in added.value ensures y in t.objects {
          assert y in multiset(added.value);
        }
        ReplaceKeeps(t, b, added.value);
      }
    }
  }

  lemma AddManaKeeps(s: State, p: int, m: ManaSymbol)
    requires Consistent(s)
    ensures Consistent(AddManaStep(s, p, m).1)
  {
    if 0 <= p < |s.players| && ColorCount(m.color) <= 1 {
      var t := AddManaStep(s, p, m).1;
      forall i, x | 0 <= i < |t.players| && x in t.players[i].pool ensures ColorCount(x.color) <= 1 {
        if i == p {
          assert x in multiset(t.players[i].pool);
        }
      }
    }
  }

  lemma RemoveManaKeeps(s: State, p: int, m: ManaSymbol)
    requires Consistent(s)
    ensures Consistent(RemoveManaStep(s, p, m).1)
  {
  }

  lemma LifeKeeps(s: State, p: int, delta: int)
    requires Consistent(s)
    ensures Consistent(LifeStep(s, p, delta).1)
  {
  }

  lemma CreateKeeps(s: State, obj: MtgObject)
    requires Consistent(s)
    ensures Consistent(CreateStep(s, obj).1)
  {
    if StackZone in s.zones {
      var o := Oid(s.nextOid);
      var stack := [o] + s.zones[StackZone];
      FreshOid(s);
      assert multiset(stack) == multiset(s.zones[StackZone]) + multiset{o};
      assert NoDup(stack) by {
        assert o !in multiset(s.zones[StackZone]);
      }
    }
  }

  lemma DeleteKeeps(s: State, o: Oid)
    requires Consistent(s)
    ensures Consistent(DeleteStep(s, o))
  {
    ForgetKeeps(s.zones, s.objects, o);
  }

  /** `o` forgotten in every zone: no duplicate appears and only other objects stay listed. */
  lemma ForgetKeeps(zones: map<ZoneId, seq<Oid>>, objects: map<Oid, MtgObject>, o: Oid)
    requires ZonesDistinct(zones) && ZonesListed(zones, objects)
    ensures ZonesDistinct(Forget(zones, o)) && ZonesListed(Forget(zones, o), objects - {o})
  {
    var zs := Forget(zones, o);
    forall z, x | z in zs && x in zs[z] ensures x in zones[z] && x != o {
      assert x in multiset(zs[z]);
    }
  }

  /** What loading a card into library `i` needs: the zone, its objects, and a fresh identifier. */
  ghost predicate LoadReady(s: State, i: nat)
  {
    OidsBelow(s.objects, s.nextOid) && ListedIn(s, LibraryZone(i))
  }

  /** Zone `z` exists and lists only existing objects. */
  ghost predicate ListedIn(s: State, z: ZoneId)
  {
    z in s.zones && forall o :: o in s.zones[z] ==> o in s.objects
  }

  /** `ys` keeps every object of `xs` as it was. */
  ghost predicate Grows(xs: map<Oid, MtgObject>, ys: map<Oid, MtgObject>)
  {
    forall o :: o in xs ==> o in ys && ys[o] == xs[o]
  }

  /** The base attributes a zone lists do not change when objects are only added. */
  lemma BasesGrow(xs: map<Oid, MtgObject>, ys: map<Oid, MtgObject>, ids: seq<Oid>)
    requires Grows(xs, ys) && forall o :: o in ids ==> o in xs
    ensures Bases(ys, ids) == Bases(xs, ids)
  {
  }

  /** The identifiers `n0`, ..., `n0 + m - 1`, newest first. */
  function FreshIds(n0: nat, m: nat): (r: seq<Oid>)
    ensures |r| == m && forall j :: 0 <= j < m ==> r[j] == Oid(n0 + m - 1 - j)
  {
    seq(m, j requires 0 <= j < m => Oid(n0 + m - 1 - j))
  }

  /** `objects` with identifier `n0 + k` naming a new object of `cards[k]`. */
  function WithCards(objects: map<Oid, MtgObject>, n0: nat, cards: seq<BaseCardAttributes>): (r: map<Oid, MtgObject>)
  {
    map o | o in objects.Keys + (set k | n0 <= k < n0 + |cards| :: Oid(k)) ::
      if n0 <= o.guid < n0 + |cards| then NewObject(cards[o.guid - n0], [], []) else objects[o]
  }

  /**
   * The constructor's inner loop: the cards of one library made objects
   * under the next identifiers, in order, each added at the library's
   * front, so the library lists them newest first.
   */
  function LoadCards(s: State, i: nat, cards: seq<BaseCardAttributes>): (t: State)
    requires LibraryZone(i) in s.zones
  {
    s.(objects := WithCards(s.objects, s.nextOid, cards),
       zones := s.zones[LibraryZone(i) := FreshIds(s.nextOid, |cards|) + s.zones[LibraryZone(i)]],
       nextOid := s.nextOid + |cards|)
  }

  /** One more card names one more object, under the next identifier. */
  lemma WithCardsSnoc(objects: map<Oid, MtgObject>, n0: nat, cards: seq<BaseCardAttributes>, card: BaseCardAttributes)
    ensures WithCards(objects, n0, cards + [card])
            == WithCards(objects, n0, cards)[Oid(n0 + |cards|) := NewObject(card, [], [])]
  {
    var m := |cards|;
    var x := WithCards(objects, n0, cards + [card]);
    var y := WithCards(objects, n0, cards)[Oid(n0 + m) := NewObject(card, [], [])];
    forall o | o in x ensures o in y && x[o] == y[o] {
      if n0 <= o.guid < n0 + m {
        assert (cards + [card])[o.guid - n0] == cards[o.guid - n0];
      } else if o.guid != n0 + m {
        assert o in objects;
      }
    }
    forall o | o in y ensures o in x {
      if o != Oid(n0 + m) && !(n0 <= o.guid < n0 + m) {
        assert o in objects;
      }
    }
  }

  /** One more fresh identifier goes in front of the others. */
  lemma FreshIdsSnoc(zones: map<ZoneId, seq<Oid>>, k: ZoneId, n0: nat, m: nat)
    requires k in zones
    ensures var x := zones[k := FreshIds(n0, m) + zones[k]];
            zones[k := FreshIds(n0, m + 1) + zones[k]] == x[k := [Oid(n0 + m)] + x[k]]
  {
    assert FreshIds(n0, m + 1) == [Oid(n0 + m)] + FreshIds(n0, m);
    assert FreshIds(n0, m + 1) + zones[k] == [Oid(n0 + m)] + (FreshIds(n0, m) + zones[k]);
  }

  /** Loading one more card is one more `LoadStep`. */
  lemma LoadCardsSnoc(s: State, i: nat, cards: seq<BaseCardAttributes>, card: BaseCardAttributes)
    requires LibraryZone(i) in s.zones
    ensures LoadCards(s, i, cards + [card]) == LoadStep(LoadCards(s, i, cards), i, card)
  {
    FreshIdsSnoc(s.zones, LibraryZone(i), s.nextOid, |cards|);
    WithCardsSnoc(s.objects, s.nextOid, cards, card);
  }

  /** Loading no card changes nothing. */
  lemma LoadNothing(s: State, i: nat)
    requires LibraryZone(i) in s.zones
    ensures LoadCards(s, i, []) == s
  {
    var z := s.zones[LibraryZone(i)];
    assert FreshIds(s.nextOid, 0) + z == z;
    assert s.zones[LibraryZone(i) := z] == s.zones;
    var x := WithCards(s.objects, s.nextOid, []);
    assert x.Keys == s.objects.Keys;
    assert x == s.objects;
  }

  /** The constructor's outer loop: library `k` loaded into player `k`'s library zone, in order. */
  function LoadLibraries(s: State, libs: seq<seq<BaseCardAttributes>>): (t: State)
    requires forall k :: 0 <= k < |libs| ==> LibraryZone(k) in s.zones
    ensures t.zones.Keys == s.zones.Keys && t.players == s.players && t.pending == s.pending
    ensures t.targets == s.targets
  {
    if libs == [] then s
    else LoadCards(LoadLibraries(s, libs[..|libs| - 1]), |libs| - 1, libs[|libs| - 1])
  }

  /** The state `new MTG(libraries)` builds, with the import as intended. */
  function NewGameState(libraries: seq<seq<BaseCardAttributes>>, targets: map<TargetId, TargetState>): State
  {
    var s := InitialState(|libraries|, targets);
    assert forall k :: 0 <= k < |libraries| ==> IsZoneOf(LibraryZone(k), |libraries|);
    LoadLibraries(s, ImportLibraries(libraries))
  }

  /** The fresh identifiers are distinct, and are exactly those from `n0` below `n0 + m`. */
  lemma FreshIdsFacts(n0: nat, m: nat)
    ensures NoDup(FreshIds(n0, m))
    ensures forall o :: o in FreshIds(n0, m) <==> n0 <= o.guid < n0 + m
  {
    FreshIdsRange(n0, m);
    FreshIdsDistinct(n0, m);
  }

  lemma FreshIdsRange(n0: nat, m: nat)
    ensures forall o :: o in FreshIds(n0, m) <==> n0 <= o.guid < n0 + m
  {
    forall o: Oid | n0 <= o.guid < n0 + m ensures o in FreshIds(n0, m) {
      assert FreshIds(n0, m)[n0 + m - 1 - o.guid] == o;
    }
  }

  lemma {:induction false} FreshIdsDistinct(n0: nat, m: nat)
    ensures NoDup(FreshIds(n0, m))
  {
    if m > 0 {
      var a, rest := Oid(n0 + m - 1), FreshIds(n0, m - 1);
      FreshIdsDistinct(n0, m - 1);
      assert a !in rest by {
        forall j | 0 <= j < |rest| ensures rest[j] != a {}
      }
      assert NoDup([a]) by {
        assert multiset([a]) == multiset{a};
      }
      AppendNoDup([a], rest);
      assert FreshIds(n0, m) == [a] + rest;
    }
  }

  /** Two duplicate-free lists with nothing in common make a duplicate-free list. */
  lemma AppendNoDup(a: seq<Oid>, b: seq<Oid>)
    requires NoDup(a) && NoDup(b) && forall o :: o in a ==> o !in b
    ensures NoDup(a + b)
  {
    assert multiset(a + b) == multiset(a) + multiset(b);
    forall x ensures multiset(a + b)[x] <= 1 {
      if x in multiset(a) {
        assert x in a && x !in b;
      }
    }
  }

  /** Adding objects under identifiers below a larger next identifier keeps the invariant. */
  lemma AddObjectsKeeps(s: State, objects: map<Oid, MtgObject>, next: nat)
    requires Consistent(s) && Grows(s.objects, objects) && OidsBelow(objects, next)
    ensures Consistent(s.(objects := objects, nextOid := next))
  {
  }

  /** Loading a library keeps the invariant. */
  lemma LoadCardsKeeps(s: State, i: nat, cards: seq<BaseCardAttributes>)
    requires Consistent(s) && i < |s.players|
    ensures LibraryZone(i) in s.zones && Consistent(LoadCards(s, i, cards))
  {
    assert IsZoneOf(LibraryZone(i), |s.players|);
    var n0, m := s.nextOid, |cards|;
    var objects := WithCards(s.objects, n0, cards);
    assert Grows(s.objects, objects) by {
      forall o | o in s.objects ensures o in objects && objects[o] == s.objects[o] {
        assert o.guid < n0;
      }
    }
    AddObjectsKeeps(s, objects, n0 + m);
    var u := s.(objects := objects, nextOid := n0 + m);
    var z := s.zones[LibraryZone(i)];
    FreshIdsFacts(n0, m);
    assert forall o :: o in z ==> o in s.objects && o.guid < n0;
    AppendNoDup(FreshIds(n0, m), z);
    ReplaceKeeps(u, LibraryZone(i), FreshIds(n0, m) + z);
  }

  /** Loading a library lists its cards in reverse at its front and keeps every object. */
  lemma LoadCardsBases(s: State, i: nat, cards: seq<BaseCardAttributes>)
    requires LoadReady(s, i)
    ensures LoadReady(LoadCards(s, i, cards), i)
    ensures var t := LoadCards(s, i, cards);
            && Bases(t.objects, t.zones[LibraryZone(i)]) == Reverse(cards) + Bases(s.objects, s.zones[LibraryZone(i)])
            && Grows(s.objects, t.objects)
  {
    var t := LoadCards(s, i, cards);
    var n0, m := s.nextOid, |cards|;
    var z := s.zones[LibraryZone(i)];
    forall o | o in s.objects ensures o in t.objects && t.objects[o] == s.objects[o] {
      assert o.guid < n0;
    }
    var lhs := Bases(t.objects, t.zones[LibraryZone(i)]);
    var rhs := Reverse(cards) + Bases(s.objects, z);
    forall j | 0 <= j < |lhs| ensures lhs[j] == rhs[j] {
      if j < m {
        assert Oid(n0 + m - 1 - j) in t.objects;
      }
    }
  }

  /** Loading the libraries keeps the invariant. */
  lemma {:induction false} LoadLibrariesKeeps(s: State, libs: seq<seq<BaseCardAttributes>>)
    requires Consistent(s) && |libs| <= |s.players|
    ensures forall k :: 0 <= k < |libs| ==> LibraryZone(k) in s.zones
    ensures Consistent(LoadLibraries(s, libs))
  {
    assert forall k :: 0 <= k < |libs| ==> IsZoneOf(LibraryZone(k), |s.players|);
    if libs != [] {
      var n := |libs| - 1;
      LoadLibrariesKeeps(s, libs[..n]);
      LoadCardsKeeps(LoadLibraries(s, libs[..n]), n, libs[n]);
    }
  }

  /** Loading the libraries touches no zone but their library zones. */
  lemma {:induction false} LoadLibrariesZones(s: State, libs: seq<seq<BaseCardAttributes>>)
    requires forall k :: 0 <= k < |libs| ==> LibraryZone(k) in s.zones
    ensures var t := LoadLibraries(s, libs);
            forall z :: z in s.zones && !(z.LibraryZone? && z.player < |libs|) ==> t.zones[z] == s.zones[z]
  {
    if libs != [] {
      var n := |libs| - 1;
      LoadLibrariesZones(s, libs[..n]);
    }
  }

  /** Loading the libraries into empty library zones lists each library in reverse. */
  lemma {:induction false} LoadLibrariesShape(s: State, libs: seq<seq<BaseCardAttributes>>)
    requires OidsBelow(s.objects, s.nextOid)
    requires forall k :: 0 <= k < |libs| ==> LibraryZone(k) in s.zones && s.zones[LibraryZone(k)] == []
    ensures var t := LoadLibraries(s, libs);
            && OidsBelow(t.objects, t.nextOid)
            && (forall k :: 0 <= k < |libs| ==> ListedIn(t, LibraryZone(k)))
            && forall k :: 0 <= k < |libs| ==> Bases(t.objects, t.zones[LibraryZone(k)]) == Reverse(libs[k])
  {
    if libs != [] {
      var n := |libs| - 1;
      LoadLibrariesShape(s, libs[..n]);
      LoadLibrariesZones(s, libs[..n]);
      var u := LoadLibraries(s, libs[..n]);
      assert u.zones[LibraryZone(n)] == [];
      LoadCardsBases(u, n, libs[n]);
      var t := LoadLibraries(s, libs);
      assert t == LoadCards(u, n, libs[n]);
      assert Bases(t.objects, t.zones[LibraryZone(n)]) == Reverse(libs[n]);
      forall k | 0 <= k < |libs|
        ensures ListedIn(t, LibraryZone(k))
        ensures Bases(t.objects, t.zones[LibraryZone(k)]) == Reverse(libs[k])
      {
        if k < n {
          assert libs[..n][k] == libs[k];
          LibraryKept(u, t, LibraryZone(k), libs[k]);
        } else {
          assert k == n;
        }
      }
    }
  }

  /** A library zone left as it was while objects are only added still lists the same cards. */
  lemma LibraryKept(u: State, t: State, z: ZoneId, cards: seq<BaseCardAttributes>)
    requires ListedIn(u, z) && Bases(u.objects, u.zones[z]) == Reverse(cards)
    requires Grows(u.objects, t.objects) && z in t.zones && t.zones[z] == u.zones[z]
    ensures ListedIn(t, z) && Bases(t.objects, t.zones[z]) == Reverse(cards)
  {
    BasesGrow(u.objects, t.objects, u.zones[z]);
  }

  /**
   * `new MTG(libraries)`: a consistent game with one fresh player per
   * library, each library zone listing its cards in reverse order with the
   * player as owner, every other zone empty and nothing pending.
   */
  lemma NewGameFacts(libraries: seq<seq<BaseCardAttributes>>, targets: map<TargetId, TargetState>)
    ensures var t := NewGameState(libraries, targets);
            && Consistent(t)
            && t.players == seq(|libraries|, _ => NewPlayerState) && t.pending == [] && t.targets == targets
            && (forall k :: 0 <= k < |libraries| ==>
                  Bases(t.objects, t.zones[LibraryZone(k)]) == Reverse(WithOwner(libraries[k], k)))
            && forall z :: z in t.zones && !z.LibraryZone? ==> t.zones[z] == []
  {
    var s := InitialState(|libraries|, targets);
    InitialConsistent(|libraries|, targets);
    assert forall k :: 0 <= k < |libraries| ==> IsZoneOf(LibraryZone(k), |libraries|);
    LoadLibrariesKeeps(s, ImportLibraries(libraries));
    LoadLibrariesShape(s, ImportLibraries(libraries));
    LoadLibrariesZones(s, ImportLibraries(libraries));
  }

  /** `Reverse` of a prefix grown by one element. */
  lemma ReversePush(cards: seq<BaseCardAttributes>, j: int)
    requires 0 <= j < |cards|
    ensures Reverse(cards[..j + 1]) == [cards[j]] + Reverse(cards[..j])
  {
    var r := Reverse(cards[..j + 1]);
    var t := [cards[j]] + Reverse(cards[..j]);
    forall k | 0 <= k < |r| ensures r[k] == t[k] {
      if k > 0 {
        assert t[k] == Reverse(cards[..j])[k - 1];
      }
    }
  }

  // ----------------------------------------------------------------------
  // Sameness up to order, and the single-change round trips
  // ----------------------------------------------------------------------

  ghost predicate SameZones(zs: map<ZoneId, seq<Oid>>, ys: map<ZoneId, seq<Oid>>)
  {
    zs.Keys == ys.Keys && forall z :: z in zs ==> multiset(zs[z]) == multiset(ys[z])
  }

  ghost predicate SamePlayer(p: PlayerState, q: PlayerState)
  {
    p.life == q.life && p.hasLost == q.hasLost && multiset(p.pool) == multiset(q.pool)
  }

  /**
   * Two states hold the same things: the same objects and targets, each
   * zone, pool and the pending list with the same elements, possibly in
   * another order. A revert puts a removed element back at the front or
   * the back rather than where it was, so a round trip is exact only up to
   * this. The next identifier is not compared: a deleted object's
   * identifier is not handed back.
   */
  ghost predicate Same(s: State, t: State)
  {
    && s.objects == t.objects
    && s.targets == t.targets
    && SameZones(s.zones, t.zones)
    && |s.players| == |t.players|
    && (forall i :: 0 <= i < |s.players| ==> SamePlayer(s.players[i], t.players[i]))
    && multiset(s.pending) == multiset(t.pending)
  }

  lemma SameSymmetric(s: State, t: State)
    requires Same(s, t)
    ensures Same(t, s)
  {
  }

  lemma SameTransitive(s: State, t: State, u: State)
    requires Same(s, t) && Same(t, u)
    ensures Same(s, u)
  {
  }

  /** Untapping what was tapped gives back the state exactly, and so does the mirror. */
  lemma TapRoundTrip(s: State, o: Oid, tapped: bool)
    requires o in s.objects && s.objects[o].status.tapped == !tapped
    ensures TapStep(s, o, tapped).0.Ok?
    ensures TapStep(TapStep(s, o, tapped).1, o, !tapped) == (Ok(()), s)
  {
    var obj := s.objects[o];
    var t := TapStep(s, o, tapped).1;
    assert t.objects[o].(status := t.objects[o].status.(tapped := !tapped)) == obj;
    assert t.objects[o := obj] == s.objects;
  }

  /**
   * A move between two different zones that succeeded is undone by the
   * move back, which also succeeds, up to the order within the zones.
   */
  lemma MoveRoundTrip(s: State, a: ZoneId, b: ZoneId, o: Oid)
    requires Consistent(s) && a != b && MoveStep(s, a, b, o).0.Ok?
    ensures MoveStep(MoveStep(s, a, b, o).1, b, a, o).0.Ok?
    ensures Same(MoveStep(MoveStep(s, a, b, o).1, b, a, o).1, s)
  {
    assert NoDup(s.zones[a]);
    MoveBack(s, a, b, o);
    SameByZones(s, MoveStep(MoveStep(s, a, b, o).1, b, a, o).1);
  }

  /** A state that differs from `s` only in the order within its zones is the same as `s`. */
  lemma SameByZones(s: State, t: State)
    requires t == s.(zones := t.zones) && SameZones(t.zones, s.zones)
    ensures Same(t, s)
  {
    assert forall i :: 0 <= i < |s.players| ==> SamePlayer(t.players[i], s.players[i]);
  }

  /** The move back after a move out of a zone without duplicates restores the zones, up to order. */
  lemma MoveBack(s: State, a: ZoneId, b: ZoneId, o: Oid)
    requires a != b && a in s.zones && NoDup(s.zones[a]) && MoveStep(s, a, b, o).0.Ok?
    ensures var u := MoveStep(MoveStep(s, a, b, o).1, b, a, o);
            u.0.Ok? && u.1 == s.(zones := u.1.zones) && SameZones(u.1.zones, s.zones)
  {
    var rest := RemoveFirst(s.zones[a], o);
    assert ZoneRemove(s.zones[a], o) == Ok(rest);
    RemoveKeepsNoDup(s.zones[a], o);
    var added := ZoneAdd(s.zones[b], o, 0).value;
    assert ZoneAdd(s.zones[b], o, 0) == Ok(added);
    var t := s.(zones := s.zones[a := rest][b := added]);
    assert MoveStep(s, a, b, o) == (Ok(()), t);
    var again := ZoneAdd(rest, o, 0).value;
    assert ZoneAdd(rest, o, 0) == Ok(again);
    assert ZoneRemove(added, o) == Ok(s.zones[b]);
    var u := t.(zones := t.zones[b := s.zones[b]][a := again]);
    assert MoveStep(t, b, a, o) == (Ok(()), u);
    ZonesBack(s.zones, a, b, rest, added, again);
  }

  /** Replacing zone `a` by a list with the same cards, after a detour through `b`, keeps the zones the same up to order. */
  lemma ZonesBack(zones: map<ZoneId, seq<Oid>>, a: ZoneId, b: ZoneId, rest: seq<Oid>, added: seq<Oid>, again: seq<Oid>)
    requires a in zones && b in zones && multiset(again) == multiset(zones[a])
    ensures SameZones(zones[a := rest][b := added][b := zones[b]][a := again], zones)
  {
  }

  /** Adding a symbol and removing it gives back the pool, up to order. */
  lemma AddManaRoundTrip(s: State, p: int, m: ManaSymbol)
    requires AddManaStep(s, p, m).0.Ok?
    ensures RemoveManaStep(AddManaStep(s, p, m).1, p, m).0 == Ok(true)
    ensures Same(RemoveManaStep(AddManaStep(s, p, m).1, p, m).1, s)
  {
    AddRemoveRoundTrip(s.players[p].pool, m);
    var u := RemoveManaStep(AddManaStep(s, p, m).1, p, m).1;
    assert SamePlayer(u.players[p], s.players[p]);
  }

  /** Removing a present symbol and adding it back gives back the pool, up to order. */
  lemma RemoveManaRoundTrip(s: State, p: int, m: ManaSymbol)
    requires Consistent(s) && RemoveManaStep(s, p, m).0 == Ok(true)
    ensures AddManaStep(RemoveManaStep(s, p, m).1, p, m).0.Ok?
    ensures Same(AddManaStep(RemoveManaStep(s, p, m).1, p, m).1, s)
  {
    RemoveAddRoundTrip(s.players[p].pool, m);
    var u := AddManaStep(RemoveManaStep(s, p, m).1, p, m).1;
    assert SamePlayer(u.players[p], s.players[p]);
  }

  /** A life change is undone exactly by the opposite change. */
  lemma LifeRoundTrip(s: State, p: int, delta: int)
    requires 0 <= p < |s.players|
    ensures LifeStep(LifeStep(s, p, delta).1, p, -delta) == (Ok(()), s)
  {
    var ps := s.players[p];
    var t := LifeStep(s, p, delta).1;
    assert t.players[p].(life := t.players[p].life + -delta) == ps;
    assert t.players[p := ps] == s.players;
  }

  /** A pushed entry, removed again, gives back the pending list exactly. */
  lemma PendingRoundTrip(s: State, e: TriggerEntry)
    requires PushPendingStep(s, e).0.Ok?
    ensures RemovePendingStep(PushPendingStep(s, e).1, e) == s
  {
    assert e !in s.pending;
    RemoveFirstAppend(s.pending, e);
  }

  lemma {:induction false} RemoveFirstAppend<T>(xs: seq<T>, x: T)
    requires x !in xs
    ensures RemoveFirst(xs + [x], x) == xs
  {
    if xs != [] {
      assert (xs + [x])[1..] == xs[1..] + [x];
      RemoveFirstAppend(xs[1..], x);
    }
  }

  /** Deleting the object just put on the stack gives back the state, up to the next identifier. */
  lemma CreateRoundTrip(s: State, obj: MtgObject)
    requires Consistent(s) && StackZone in s.zones
    ensures CreateStep(s, obj).0 == Ok(Oid(s.nextOid))
    ensures Same(DeleteStep(CreateStep(s, obj).1, Oid(s.nextOid)), s)
  {
    FreshOid(s);
    FreshRoundTrip(s, obj);
  }

  lemma FreshRoundTrip(s: State, obj: MtgObject)
    requires StackZone in s.zones && Oid(s.nextOid) !in s.objects
    requires forall z :: z in s.zones ==> Oid(s.nextOid) !in s.zones[z]
    ensures Same(DeleteStep(CreateStep(s, obj).1, Oid(s.nextOid)), s)
  {
    var o := Oid(s.nextOid);
    var t := CreateStep(s, obj).1;
    assert t.objects - {o} == s.objects;
    ForgetFresh(s.zones, t.zones, o);
  }

  /** Forgetting an identifier that only the stack's new front lists gives back the zones. */
  lemma ForgetFresh(zs: map<ZoneId, seq<Oid>>, ys: map<ZoneId, seq<Oid>>, o: Oid)
    requires StackZone in zs && ys == zs[StackZone := [o] + zs[StackZone]]
    requires forall z :: z in zs ==> o !in zs[z]
    ensures SameZones(Forget(ys, o), zs)
  {
    var us := Forget(ys, o);
    forall z | z in zs ensures multiset(us[z]) == multiset(zs[z]) {
      assert multiset(zs[z])[o] == 0;
      if z == StackZone {
        assert multiset(ys[z]) == multiset(zs[z]) + multiset{o};
      }
    }
  }

  /** Declaring a target that was not declared and resetting it gives back the state exactly. */
  lemma TargetRoundTrip(s: State, tid: TargetId, st: TargetState)
    requires tid in s.targets && s.targets[tid] == Undeclared
    ensures TargetStep(s, tid, st).0.Ok?
    ensures TargetStep(TargetStep(s, tid, st).1, tid, Undeclared) == (Ok(()), s)
  {
    assert s.targets[tid := st][tid := Undeclared] == s.targets;
  }

  // ----------------------------------------------------------------------
  // The reverting changes do the same on states that are the same
  // ----------------------------------------------------------------------

  lemma TapRespects(s: State, t: State, o: Oid, tapped: bool)
    requires Same(s, t)
    ensures TapStep(s, o, tapped).0 == TapStep(t, o, tapped).0
    ensures Same(TapStep(s, o, tapped).1, TapStep(t, o, tapped).1)
  {
  }

  lemma MoveRespects(s: State, t: State, a: ZoneId, b: ZoneId, o: Oid)
    requires Same(s, t)
    ensures MoveStep(s, a, b, o).0 == MoveStep(t, a, b, o).0
    ensures Same(MoveStep(s, a, b, o).1, MoveStep(t, a, b, o).1)
  {
    if a in s.zones && b in s.zones {
      assert (o in s.zones[a]) == (o in multiset(s.zones[a])) == (o in t.zones[a]);
      if o in s.zones[a] {
        var ms := s.zones[a := RemoveFirst(s.zones[a], o)];
        var mt := t.zones[a := RemoveFirst(t.zones[a], o)];
        SameZonesUpdate(s.zones, t.zones, a, RemoveFirst(s.zones[a], o), RemoveFirst(t.zones[a], o));
        assert (o in ms[b]) == (o in multiset(ms[b])) == (o in mt[b]);
        if o !in ms[b] {
          SameZonesUpdate(ms, mt, b, ZoneAdd(ms[b], o, 0).value, ZoneAdd(mt[b], o, 0).value);
        }
      }
    }
  }

  /** Replacing one zone by lists with the same elements keeps zone maps the same up to order. */
  lemma SameZonesUpdate(zs: map<ZoneId, seq<Oid>>, ys: map<ZoneId, seq<Oid>>, z: ZoneId, x: seq<Oid>, y: seq<Oid>)
    requires SameZones(zs, ys) && multiset(x) == multiset(y)
    ensures SameZones(zs[z := x], ys[z := y])
  {
  }

  lemma AddManaRespects(s: State, t: State, p: int, m: ManaSymbol)
    requires Same(s, t)
    ensures AddManaStep(s, p, m).0 == AddManaStep(t, p, m).0
    ensures Same(AddManaStep(s, p, m).1, AddManaStep(t, p, m).1)
  {
  }

  lemma RemoveManaRespects(s: State, t: State, p: int, m: ManaSymbol)
    requires Same(s, t)
    ensures RemoveManaStep(s, p, m).0 == RemoveManaStep(t, p, m).0
    ensures Same(RemoveManaStep(s, p, m).1, RemoveManaStep(t, p, m).1)
  {
    if 0 <= p < |s.players| {
      assert (m in s.players[p].pool) == (m in multiset(s.players[p].pool)) == (m in t.players[p].pool);
    }
  }

  lemma LifeRespects(s: State, t: State, p: int, delta: int)
    requires Same(s, t)
    ensures LifeStep(s, p, delta).0 == LifeStep(t, p, delta).0
    ensures Same(LifeStep(s, p, delta).1, LifeStep(t, p, delta).1)
  {
  }

  lemma RemovePendingRespects(s: State, t: State, e: TriggerEntry)
    requires Same(s, t)
    ensures Same(RemovePendingStep(s, e), RemovePendingStep(t, e))
  {
    assert (e in s.pending) == (e in multiset(s.pending)) == (e in t.pending);
  }

  lemma DeleteRespects(s: State, t: State, o: Oid)
    requires Same(s, t)
    ensures Same(DeleteStep(s, o), DeleteStep(t, o))
  {
  }

  lemma TargetRespects(s: State, t: State, tid: TargetId, st: TargetState)
    requires Same(s, t)
    ensures TargetStep(s, tid, st).0 == TargetStep(t, tid, st).0
    ensures Same(TargetStep(s, tid, st).1, TargetStep(t, tid, st).1)
  {
  }

  // ----------------------------------------------------------------------
  // The changes other than a trigger push leave the pending list alone
  // ----------------------------------------------------------------------

  lemma TapPending(s: State, o: Oid, tapped: bool, q: seq<TriggerEntry>)
    ensures TapStep(s.(pending := q), o, tapped).1 == TapStep(s, o, tapped).1.(pending := q)
    ensures TapStep(s, o, tapped).1.pending == s.pending
  {
  }

  lemma MovePending(s: State, a: ZoneId, b: ZoneId, o: Oid, q: seq<TriggerEntry>)
    ensures MoveStep(s.(pending := q), a, b, o).1 == MoveStep(s, a, b, o).1.(pending := q)
    ensures MoveStep(s, a, b, o).1.pending == s.pending
  {
  }

  lemma AddManaPending(s: State, p: int, m: ManaSymbol, q: seq<TriggerEntry>)
    ensures AddManaStep(s.(pending := q), p, m).1 == AddManaStep(s, p, m).1.(pending := q)
    ensures AddManaStep(s, p, m).1.pending == s.pending
  {
  }

  lemma RemoveManaPending(s: State, p: int, m: ManaSymbol, q: seq<TriggerEntry>)
    ensures RemoveManaStep(s.(pending := q), p, m).1 == RemoveManaStep(s, p, m).1.(pending := q)
    ensures RemoveManaStep(s, p, m).1.pending == s.pending
  {
  }

  lemma LifePending(s: State, p: int, delta: int, q: seq<TriggerEntry>)
    ensures LifeStep(s.(pending := q), p, delta).1 == LifeStep(s, p, delta).1.(pending := q)
    ensures LifeStep(s, p, delta).1.pending == s.pending
  {
  }

  lemma DeletePending(s: State, o: Oid, q: seq<TriggerEntry>)
    ensures DeleteStep(s.(pending := q), o) == DeleteStep(s, o).(pending := q)
    ensures DeleteStep(s, o).pending == s.pending
  {
  }

  lemma TargetPending(s: State, tid: TargetId, st: TargetState, q: seq<TriggerEntry>)
    ensures TargetStep(s.(pending := q), tid, st).1 == TargetStep(s, tid, st).1.(pending := q)
    ensures TargetStep(s, tid, st).1.pending == s.pending
  {
  }
}
