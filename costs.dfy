/**
 * `Cost`: the older cost objects an ability can carry, paid and paid back
 * directly on the game. Tapping the source and giving mana back are
 * modelled; paying a mana cost goes through `ManaPool.PayFor`, which is not
 * part of this model.
 */
module Costs {
  import opened Wrappers
  import opened Oids
  import opened Lists
  import opened Mana
  import opened Zones
  import opened GameState
  import opened Games

  datatype Cost = CostTapSelf | CostPayMana(manaCost: ManaCost)

  /** `ToString`: `{Tap}` for tapping the source, the cost's own text for mana. */
  function CostText(c: Cost): string
  {
    match c
    case CostTapSelf => "{Tap}"
    case CostPayMana(m) => CostString(m)
  }

  /**
   * `CanPay(source)`: tapping needs the source on the battlefield and
   * untapped (reading the object faults when it is missing); mana can
   * always be tried.
   */
  function CanPay(s: State, c: Cost, source: Oid): (r: Result<bool>)
    ensures c.CostPayMana? ==> r == Ok(true)
    ensures c.CostTapSelf? ==>
              (r == Ok(true) <==> FindZone(s, source) == Some(BattlefieldZone) && source in s.objects
                                  && !s.objects[source].status.tapped)
    ensures r.Err? ==> r == Err(KeyNotFoundException) && source !in s.objects
  {
    match c
    case CostPayMana(_) => Ok(true)
    case CostTapSelf =>
      if FindZone(s, source) != Some(BattlefieldZone) then Ok(false)
      else if source !in s.objects then Err(KeyNotFoundException)
      else Ok(!s.objects[source].status.tapped)
  }

  /** `Pay` of `CostTapSelf`: nothing when it cannot be paid, otherwise the source is tapped. */
  method PayTapSelf(g: Game, source: Oid) returns (r: Result<bool>)
    modifies g`objects
    ensures r == CanPay(old(g.Snapshot()), CostTapSelf, source)
    ensures r == Ok(true) ==> g.Snapshot() == TapStep(old(g.Snapshot()), source, true).1
    ensures r != Ok(true) ==> g.Snapshot() == old(g.Snapshot())
  {
    r := CanPay(g.Snapshot(), CostTapSelf, source);
    if r != Ok(true) {
      return;
    }
    var tapped := g.SetTapped(source, true);
  }

  /** Paying by tapping and paying back gives the same game. */
  lemma TapSelfRoundTrip(s: State, source: Oid)
    requires CanPay(s, CostTapSelf, source) == Ok(true)
    ensures TapStep(TapStep(s, source, true).1, source, false) == (Ok(()), s)
  {
    var obj := s.objects[source];
    assert obj.status.(tapped := true).(tapped := false) == obj.status;
    assert s.objects[source := obj.(status := obj.status.(tapped := true))][source := obj] == s.objects;
  }

  /** `ManaPool.AddMana(ManaCost)`: each symbol added in turn, stopping at the first that is refused. */
  function AddAllStep(s: State, p: int, syms: seq<ManaSymbol>): (Result<()>, State)
    decreases |syms|
  {
    if syms == [] then (Ok(()), s)
    else
      var (r, t) := AddAllStep(s, p, syms[..|syms| - 1]);
      if r.Err? then (r, t) else AddManaStep(t, p, syms[|syms| - 1])
  }

  /**
   * Giving back single-coloured symbols to a player adds exactly those
   * symbols to the end of that player's pool and changes nothing else.
   */
  lemma {:induction false} AddAllAppends(s: State, p: int, syms: seq<ManaSymbol>)
    requires 0 <= p < |s.players|
    requires forall i :: 0 <= i < |syms| ==> ColorCount(syms[i].color) <= 1
    ensures AddAllStep(s, p, syms) == (Ok(()), s.(players := s.players[p := s.players[p].(pool := s.players[p].pool + syms)]))
    decreases |syms|
  {
    if syms != [] {
      var init := syms[..|syms| - 1];
      assert forall j :: 0 <= j < |init| ==> init[j] == syms[j];
      AddAllAppends(s, p, init);
      FrontLast(syms);
      AddOneAppends(s, p, init, syms[|syms| - 1]);
    } else {
      assert s.players[p].pool + syms == s.players[p].pool;
      assert s.players[p := s.players[p]] == s.players;
    }
  }

  /** Giving back one more single-coloured symbol appends it to the pool. */
  lemma AddOneAppends(s: State, p: int, init: seq<ManaSymbol>, m: ManaSymbol)
    requires 0 <= p < |s.players| && ColorCount(m.color) <= 1
    ensures var q := s.players[p];
            AddManaStep(s.(players := s.players[p := q.(pool := q.pool + init)]), p, m)
            == (Ok(()), s.(players := s.players[p := q.(pool := q.pool + (init + [m]))]))
  {
    var q := s.players[p];
    var u := s.(players := s.players[p := q.(pool := q.pool + init)]);
    assert u.players[p].pool == q.pool + init;
    AppendAssoc(q.pool, init, [m]);
    assert PoolAdd(q.pool + init, m) == Ok(q.pool + (init + [m]));
    assert u.players[p := u.players[p].(pool := q.pool + (init + [m]))] == s.players[p := q.(pool := q.pool + (init + [m]))];
  }

  /** A symbol of two colours is refused, whatever was given back before it. */
  lemma {:induction false} AddAllRefuses(s: State, p: int, syms: seq<ManaSymbol>, i: nat)
    requires 0 <= p < |s.players| && i < |syms| && ColorCount(syms[i].color) > 1
    ensures AddAllStep(s, p, syms).0 == Err(ArgumentException)
    decreases |syms|
  {
    var k := |syms| - 1;
    if i < k {
      assert syms[..k][i] == syms[i];
      AddAllRefuses(s, p, syms[..k], i);
    } else {
      var (r, t) := AddAllStep(s, p, syms[..k]);
      if r.Ok? {
        AddAllPlayers(s, p, syms[..k]);
      } else {
        AddAllFaults(s, p, syms[..k]);
      }
    }
  }

  /** Giving back mana keeps the number of players. */
  lemma {:induction false} AddAllPlayers(s: State, p: int, syms: seq<ManaSymbol>)
    ensures |AddAllStep(s, p, syms).1.players| == |s.players|
    decreases |syms|
  {
    if syms != [] {
      AddAllPlayers(s, p, syms[..|syms| - 1]);
    }
  }

  /** The only fault from giving back mana to an existing player is a refused symbol. */
  lemma {:induction false} AddAllFaults(s: State, p: int, syms: seq<ManaSymbol>)
    requires 0 <= p < |s.players|
    ensures AddAllStep(s, p, syms).0.Err? ==> AddAllStep(s, p, syms).0 == Err(ArgumentException)
    decreases |syms|
  {
    if syms != [] {
      AddAllFaults(s, p, syms[..|syms| - 1]);
      AddAllPlayers(s, p, syms[..|syms| - 1]);
    }
  }

  /** Once a symbol is refused, the symbols after it are not given back. */
  lemma {:induction false} AddAllStops(s: State, p: int, syms: seq<ManaSymbol>, i: nat)
    requires i <= |syms| && AddAllStep(s, p, syms[..i]).0.Err?
    ensures AddAllStep(s, p, syms) == AddAllStep(s, p, syms[..i])
    decreases |syms|, 1
  {
    if i < |syms| {
      AddAllStopsLast(s, p, syms, i);
    } else {
      assert syms[..i] == syms;
    }
  }

  /** `AddAllStops` for a refusal before the last symbol: the last one is skipped too. */
  lemma {:induction false} AddAllStopsLast(s: State, p: int, syms: seq<ManaSymbol>, i: nat)
    requires i < |syms| && AddAllStep(s, p, syms[..i]).0.Err?
    ensures AddAllStep(s, p, syms) == AddAllStep(s, p, syms[..i])
    decreases |syms|, 0
  {
    var init := syms[..|syms| - 1];
    PrefixOfPrefix(syms, |syms| - 1, i);
    AddAllStops(s, p, init, i);
    AddAllSkips(s, p, syms);
  }

  /** After a refusal, one more symbol is not given back. */
  lemma AddAllSkips(s: State, p: int, syms: seq<ManaSymbol>)
    requires syms != [] && AddAllStep(s, p, syms[..|syms| - 1]).0.Err?
    ensures AddAllStep(s, p, syms) == AddAllStep(s, p, syms[..|syms| - 1])
  {
  }

  /** `ReversePay` of `CostPayMana`: every symbol of the cost back into the pool of the source's controller. */
  function RefundStep(s: State, source: Oid, m: ManaCost): (Result<()>, State)
  {
    if source !in s.objects then (Err(KeyNotFoundException), s)
    else
      var p := s.objects[source].attr.controller;
      if !(0 <= p < |s.players|) then (Err(ArgumentOutOfRangeException), s)
      else AddAllStep(s, p, m.symbols)
  }

  /**
   * `ReversePay`: untaps the source for `CostTapSelf`; gives every symbol
   * of the cost back to the source's controller for `CostPayMana`.
   */
  method ReversePay(g: Game, c: Cost, source: Oid) returns (r: Result<()>)
    modifies g`objects, g`players
    ensures c.CostTapSelf? ==> (r, g.Snapshot()) == TapStep(old(g.Snapshot()), source, false)
    ensures c.CostPayMana? ==> (r, g.Snapshot()) == RefundStep(old(g.Snapshot()), source, c.manaCost)
  {
    if c.CostTapSelf? {
      r := g.SetTapped(source, false);
      return;
    }
    if source !in g.objects {
      return Err(KeyNotFoundException);
    }
    var p := g.objects[source].attr.controller;
    if !(0 <= p < |g.players|) {
      return Err(ArgumentOutOfRangeException);
    }
    ghost var s := g.Snapshot();
    var syms := c.manaCost.symbols;
    var i := 0;
    while i < |syms|
      invariant 0 <= i <= |syms|
      invariant AddAllStep(s, p, syms[..i]) == (Ok(()), g.Snapshot())
    {
      assert syms[..i + 1][..i] == syms[..i];
      var added := g.AddMana(p, syms[i]);
      if added.Err? {
        AddAllStops(s, p, syms, i + 1);
        return added;
      }
      i := i + 1;
    }
    assert syms[..i] == syms;
    return Ok(());
  }
}
