# MTGLib rules engine core, in Dafny

MTGLib is a C# rules engine for a trading-card game. This project models
its core:

- the containers the game mutates: zones, counter stores, mana pools and players;
- the mana algebra of symbols and costs;
- modifications and the durations of continuous effects;
- game objects and their attributes;
- choices and targets;
- the turn and priority state machine;
- the reversible event tree: every event's `Apply`, `PushChild`, `CheckTriggers`, `Revertable` and `Revert`, with the primitive events, the composite events (cast, activate, containers) and the cost events with the mana payment loop.

The global `MTG.Instance` is the `Games.Game` class. Its fields are the
objects, zones, players, pending triggered abilities and target states,
kept as values. The `Controllers.Controller` class holds it together with
the `Turn`, the pass count and the continuous effects.

Every blocking choice is an answer list. `Game` holds the lists of target
answers and mana payment answers. A list with nothing left counts as a
cancel.

The event tree has two layers:

- `EventTree` gives each recorded application (a `Node`: the event, its
  outcome, what its own action remembered, its attempted children and
  whether they were reverted) a meaning as a function on the `State` value:
  `Runs`, `Eff` and `Undo`. Its theorems state revert symmetry: in a
  consistent state, a clean application that succeeded is undone by its
  revert, and one that failed changed nothing, up to the order within
  zones, pools and the pending list (`Net`, `NetAll`, `FailAll`). Both
  `Eff` and `Undo` keep the state consistent.
- `Engine` applies and reverts events on a `Game`. Each method is proved
  to produce, when it does not fault, a node that is a run of its event,
  and to leave the game in that node's `Eff` (`Applied`). For the events
  applied by their own action alone or through one such child (`Simple`),
  the methods also state exactly when they fault and with which exception
  (`PrimFault`, `SimpleFault`), and `Engine.SimpleNoFault` gives the
  conditions under which they do not. For the other events only some
  fault conditions are stated (see Left out).

The containers with methods that update in place (`Zone`, `CounterStore`,
`ManaPool`, `Player`, `Choice`, `Target`, `ContinuousEffect`, `Turn`) are
classes. Their methods are proved against pure specification functions, and
the game state uses those same functions on its values.

Where the code and the design description of the system disagree, the
model follows the code:

- The pass count is not reset when a phase ends (MTGLib/MTG.cs:166-175). After a phase has ended with no action taken, one more pass ends the next phase too (`Controllers.OnePassEndsNextPhase`).
- `MTGEventContainer`, `MTGCostEventContainer` and `EffectEvent` do not revert the children that succeeded when another one fails. Only the cast, the activation and the mana payment revert what they pushed.
- The cleanup step writes `permanentStatus.damage`, but the `PermanentStatus` shown in MTGLib/MTGObject.cs has no such field. The model gives the status a `damage` field.
- `MTG.FindZoneFromOID`, `MTG.MoveZone`, `MTG.CreateObject`, `MTG.DeleteObject`, `MTG.PushEvent`, `Player.ChangeLife`, `Hand.DiscardsNeeded` and `Target.Reset` are called but their bodies are not part of this model. Each is given the plain meaning its name and callers show:
  - the lookup is the first zone listing the object;
  - a move is a removal from the old zone and an insertion at the front of the new one;
  - creation and deletion add and drop the object;
  - a life change adds the amount;
  - a reset makes the target undeclared.
  The design's refusal to move a non-permanent onto the battlefield is not in the code shown, so it is not modelled.

## Model

| member | source | states |
|---|---|---|
| Oids.OidSupply.NewOid | MTGLib/MTGObject.cs:12-15 | a new identifier differs from every identifier issued before, and is added to the issued set |
| Oids.TwoFreshOids | MTGLib/MTGObject.cs:12-20 | two identifiers made one after the other are unequal and were never issued before |
| Lists.RemoveFirst | MTGLib/Zone.cs:93-98 | `List.Remove` drops exactly one occurrence of a present element (multiset minus one, length minus one) and leaves the list alone otherwise |
| Lists.RemoveFirstDistinct | MTGLib/Zone.cs:93-98 | in a list without duplicates, removing the first occurrence removes the element entirely and keeps the list duplicate-free |
| Lists.RemoveFirstLast | MTGLib/Zone.cs:93-98 | removing an element just appended to a list that lacked it gives the original list back |
| Lists.ReverseMultiset | MTGLib/Player.cs:24-31 | reversing the moved cards keeps every card |
| Phases.Next | MTGLib/Phase.cs:9-18 | `Extensions.Next` moves to the following enum value and wraps from the last value (Cleanup) to the first (Untap) |
| Phases.NextCycles | MTGLib/Phase.cs:9-18 | twelve `Next` steps return to the same phase and no shorter positive number of steps does |
| Phases.AdvanceOrdinal | MTGLib/Phase.cs:9-18 | `n` steps from a phase that do not pass the end raise its position by `n`; reaching the end lands on Untap |
| Phases.SorceryPhase | MTGLib/Phase.cs:167-178 | sorcery speed holds exactly in Main1 and Main2 |
| Phases.GivesPriority | MTGLib/Phase.cs:180-191 | every phase gives priority except Untap and Cleanup |
| Turns.IncPrioritySpec | MTGLib/MTG.cs:74-83 | the index steps by one and wraps to 0 at `playerCount`, reporting true exactly when it wraps; an index in range stays in range |
| Turns.IncPhaseSpec | MTGLib/MTG.cs:60-71 | Cleanup goes to Untap and reports the wrap; every other phase moves to the next position without wrapping |
| Turns.IncPhaseIsNext | MTGLib/MTG.cs:60-71 | both branches of `IncPhase` agree with `Extensions.Next` |
| Turns.PriorityCycles | MTGLib/MTG.cs:74-83 | `playerCount` priority steps from any seat return to it, and fewer steps visit the later seats in order |
| Turns.PriorityAfterClimbs | MTGLib/MTG.cs:74-83 | `k` priority steps that do not pass the last seat move the index up by `k` |
| Turns.Turn.Init | MTGLib/MTG.cs:31-37 | turn 0, player 0 active and holding priority, untap step |
| Turns.Turn.ResetPriority | MTGLib/MTG.cs:40-43 | priority goes to the active player; nothing else changes |
| Turns.Turn.IncTurn | MTGLib/MTG.cs:46-56 | the turn count always grows by one; the active player steps as `IncPrioritySpec` says and the result is its wrap flag |
| Turns.Turn.IncPhase | MTGLib/MTG.cs:60-71 | the phase and the result follow `IncPhaseSpec`; the counters and indexes are untouched |
| Turns.Turn.IncPriority | MTGLib/MTG.cs:74-83 | the priority index and the result follow `IncPrioritySpec`; turn, active player and phase are untouched |
| EnumStrings.HasColor | MTGLib/EnumStrings.cs:34-37 | true exactly when every bit of `test` is set in `color`; every colour has Generic |
| EnumStrings.GetFlags | MTGLib/EnumStrings.cs:39-44 | the loop keeps, in ascending order of the values (the order `Enum.GetValues` returns), each named colour whose bits are set in the input |
| EnumStrings.GetFlagsMeaning | MTGLib/EnumStrings.cs:39-44 | a value is among the flags exactly when it is a named colour contained in the input, and Generic always comes first |
| EnumStrings.FlagsInMembers | MTGLib/EnumStrings.cs:39-44 | over any list of values, a value is kept exactly when it is listed and contained in the input |
| EnumStrings.IsPermanentType | MTGLib/EnumStrings.cs:46-56 | Instant and Sorcery are the only card types that are not permanents |
| EnumStrings.PhaseNamesDistinct | MTGLib/EnumStrings.cs:92-111 | the twelve phase names are non-empty and pairwise distinct |
| EnumStrings.TypeNamesDistinct | MTGLib/EnumStrings.cs:19-32 | card-type, supertype and subtype names are pairwise distinct within their enum |
| Counters.CountOf | MTGLib/Counter.cs:34-43 | the stored number for a present kind, 0 for an absent one |
| Counters.AddSpec | MTGLib/Counter.cs:18-27 | the kind is present afterwards with its count raised by `amount`; other kinds keep their counts |
| Counters.RemoveSpec | MTGLib/Counter.cs:45-60 | succeeds exactly when at least `amount` is stored; more is reduced, exactly `amount` deletes the kind, failure leaves the store as it was; other kinds are untouched |
| Counters.RemoveAllSpec | MTGLib/Counter.cs:62-70 | reports whether the kind was present and deletes it, leaving other kinds alone |
| Counters.PositiveKept | MTGLib/Counter.cs:18-70 | adding or removing positive amounts keeps every stored count positive |
| Counters.AddRemoveRoundTrip | MTGLib/Counter.cs:18-60 | adding a positive amount and then removing the same amount restores the store exactly |
| Counters.CounterStore.Has | MTGLib/Counter.cs:29-32 | true exactly when the kind is stored |
| Counters.CounterStore.Count | MTGLib/Counter.cs:34-43 | the count as `CountOf` defines it |
| Counters.CounterStore.Add | MTGLib/Counter.cs:18-27 | the store becomes `AddSpec` of the old one |
| Counters.CounterStore.Remove | MTGLib/Counter.cs:45-60 | result and new store are `RemoveSpec` of the old store |
| Counters.CounterStore.RemoveAll | MTGLib/Counter.cs:62-70 | result and new store are `RemoveAllSpec` of the old store |
| Counters.CounterStore.Clear | MTGLib/Counter.cs:72-75 | the store is empty |
| Players.MoveTop | MTGLib/Player.cs:24-31 | `n` single-card moves from the top of one zone to the top of another: succeeds iff the source holds `n` cards, and the moved cards arrive in reverse order on top of the destination |
| Players.MoveTopKeepsCards | MTGLib/Player.cs:24-31 | drawing keeps every card in one of the two zones |
| Players.LastMovedOnTop | MTGLib/Player.cs:24-31 | the last card drawn is on top of the hand |
| Players.MillAsWrittenSpec | MTGLib/Player.cs:33-39 | as written, any positive count empties the whole library into the graveyard and then faults |
| Players.MillAsWrittenOvershoots | MTGLib/Player.cs:33-39 | milling one card from a two-card library moves both and faults, where a one-card move was intended |
| Players.Player.Draw | MTGLib/Player.cs:24-31 | library and hand become `MoveTop` of the old ones; it faults (popping an empty library) exactly when the library holds fewer than `count` cards |
| Players.Player.MillAsWritten | MTGLib/Player.cs:33-39 | library and graveyard become `MillAsWrittenSpec` of the old ones |
| Players.Player.Mill | MTGLib/Player.cs:33-39 | with the counter decremented, the same moves as `Draw` into the graveyard |
| Choices.Choice.Resolve | MTGLib/Choice.cs:109-120 | a list whose size is within `Min..Max` is taken and the choice resolved; otherwise the choice is unresolved and its earlier list kept |
| Choices.Deliver | MTGLib/Choice.cs:35-42 | a delivered list always passes `Verify` and is one of the answers given; answers are consumed from the front; no answers means cancelled |
| Choices.DeliverFirst | MTGLib/Choice.cs:109-120 | a first answer of acceptable size is taken; a first cancel cancels |
| Choices.DeliverSkips | MTGLib/Choice.cs:109-120 | answers of unacceptable size are skipped and delivery resumes after them |
| Zones.NodeAt | MTGLib/Zone.cs:48-69 | `GetNode(index)` finds position `index` when it is in range, returns the null node only for an empty zone at index 0 or -1, and otherwise throws `IndexOutOfRangeException` |
| Zones.ZoneAdd | MTGLib/Zone.cs:23-37 | refuses an identifier already present with `ArgumentException`; a successful add inserts exactly that identifier (removing it gives the zone back), at the front for index 0, at the end for an index past the end, and at `index` otherwise |
| Zones.ZonePop | MTGLib/Zone.cs:71-76 | the front identifier and the rest; an empty zone faults with a null dereference |
| Zones.ZonePush | MTGLib/Zone.cs:78-81 | the identifier goes in front of the unchanged zone |
| Zones.ZoneGetAsWritten | MTGLib/Zone.cs:83-86 | the identifier at an in-range index; the empty zone's null node faults, other bad indexes throw `IndexOutOfRangeException` |
| Zones.ZoneGet | MTGLib/Zone.cs:83-86 | the corrected `Get`: no identifier for the empty zone at 0 or -1, the identifier at an in-range index, `IndexOutOfRangeException` otherwise |
| Zones.ZoneRemove | MTGLib/Zone.cs:93-98 | fails with `ArgumentException` exactly when the identifier is absent; otherwise exactly one occurrence is dropped |
| Zones.DiscardsNeeded | UnitTests/ZoneTests.cs:48-66 | the cards over the maximum hand size, and none when the hand fits or the maximum is negative |
| Zones.Zone.GetNode | MTGLib/Zone.cs:48-69 | the walk over the nodes returns what `NodeAt` says |
| Zones.Zone.Add | MTGLib/Zone.cs:23-37 | the zone becomes `ZoneAdd` of the old one, and a refused add changes nothing |
| Zones.Zone.Pop | MTGLib/Zone.cs:71-76 | returns the front identifier and removes it; an empty zone faults and is unchanged |
| Zones.Zone.Push | MTGLib/Zone.cs:78-81 | the zone becomes `ZonePush` of the old one |
| Zones.Zone.Get | MTGLib/Zone.cs:83-86 | the result is the corrected `ZoneGet` |
| Zones.Zone.Remove | MTGLib/Zone.cs:93-98 | fails exactly when the identifier is absent, leaving the zone alone; otherwise the zone becomes `ZoneRemove` of the old one |
| Zones.Zone.Has | MTGLib/Zone.cs:88-91 | true exactly when the identifier is in the zone |
| Zones.Zone.Count | MTGLib/Zone.cs:13-16 | the number of identifiers in the zone |
| Zones.AddKeepsNoDup | MTGLib/Zone.cs:23-37 | `Add` keeps a duplicate-free zone duplicate-free |
| Zones.RemoveKeepsNoDup | MTGLib/Zone.cs:93-98 | `Remove` keeps a duplicate-free zone duplicate-free, and the identifier is gone afterwards |
| Zones.PushPopRoundTrip | MTGLib/Zone.cs:71-81 | `Push(x)` then `Pop()` returns `x` and restores the zone |
| Zones.AddThenGet | MTGLib/Zone.cs:23-86 | after adding an absent identifier at an index within `0..Count`, `Get` at that index finds it |
| Zones.ZoneScenario | UnitTests/ZoneTests.cs:13-45 | the zone test's sequence of adds, gets, pops, refused adds and removes, and a push, with the results it asserts |
| Zones.HandScenario | UnitTests/ZoneTests.cs:48-66 | the hand test's discard counts for maximum sizes 7, 5, 50 and -1 |
| Zones.EmptyGetFaults | MTGLib/Zone.cs:83-86 | as written, `Get(0)` on an empty zone faults where the zone test expects no identifier |
| Objects.NewObject | MTGLib/MTGObject.cs:104-108 | a new object carries the base attributes and default attributes and status |
| Objects.Import | MTGLib/MTGObject.cs:50-57 | copies name, mana cost, power and toughness, and the owner becomes the controller |
| Objects.ResetAttributes | MTGLib/MTGObject.cs:110-114 | the attributes are imported afresh from the base, and nothing else about the object changes |
| Objects.ResetStatus | MTGLib/MTGObject.cs:68-71 | tapped, flipped, face-down and phased-out are cleared; the marked damage is kept |
| Objects.ObjectIdentity | MTGLib/MTGObject.cs:153-157 | the identity contains the colour of every symbol of the current mana cost |
| Objects.ResetIdentity | MTGLib/MTGObject.cs:110-157 | after a reset the identity is that of the printed cost |
| Objects.CalculateAttributesAsWritten | MTGLib/MTGObject.cs:126-151 | as written it succeeds only with no active modification (writing into the empty index list faults otherwise), and then gives the reset attributes |
| Objects.CalculateAttributes | MTGLib/MTGObject.cs:126-151 | as intended, with every layer still empty: the reset attributes, whatever modifications are active |
| Objects.CalculateAttributesStable | MTGLib/MTGObject.cs:126-151 | recalculating is idempotent, and with no modifications the intended form agrees with the code |
| Modifications.OperationValue | MTGLib/Modification.cs:9 | the operation's underlying value is -1, 0 or 1, and 0 exactly for Override |
| Modifications.BaseModifyIgnoresInput | MTGLib/Modification.cs:15-18 | the base `Modify` returns the stored value whatever the input |
| Modifications.ModifyInt | MTGLib/Modification.cs:65-78 | Override yields the value; Add and Subtract move the input by the value in the operation's direction |
| Modifications.IntAddSubtractRoundTrip | MTGLib/Modification.cs:65-78 | subtracting a value undoes adding it |
| Modifications.DefaultIntModOverrides | MTGLib/Modification.cs:64 | since `op` is never set from its default, every `IntMod` yields its value whatever the input |
| Modifications.ModifyCost | MTGLib/Modification.cs:46-59 | Override yields the value; Add combines the symbols of both costs; Subtract leaves, colour by colour, the surplus of the input over the value |
| Modifications.CostAddSubtractRoundTrip | MTGLib/Modification.cs:46-59 | adding a cost and subtracting it again gives a cost equal to the input |
| Modifications.DefaultCostModOverrides | MTGLib/Modification.cs:45 | since `op` is never set from its default, every `ManaCostMod` replaces the cost |
| Modifications.TypeModify | MTGLib/Modification.cs:26-38 | the loops copy the input, add every type to add, then remove every type to remove |
| Modifications.TypeModMembership | MTGLib/Modification.cs:26-38 | a type is in the result exactly when it was in the input or added, and is not removed, so a type both added and removed is absent |
| Modifications.TypeModIdempotent | MTGLib/Modification.cs:26-38 | applying the same type modification twice changes nothing more |
| ContinuousEffects.IsDurationDataValid | MTGLib/ContinuousEffect.cs:70-105 | each duration is valid exactly when the fields it needs are present; Infinite needs none |
| ContinuousEffects.EndOfPhaseActiveAsWritten | MTGLib/ContinuousEffect.cs:123-128 | as written, the effect is over once the turn is past its turn, and also whenever the phase is later than its phase, in any turn |
| ContinuousEffects.EndOfPhaseEndsEarly | MTGLib/ContinuousEffect.cs:123-128 | an effect meant to last until Main1 of turn 2 reads as over in CombatStart of turn 1, yet active again in turn 2 |
| ContinuousEffects.EndOfPhaseActive | MTGLib/ContinuousEffect.cs:123-128 | as intended, the effect lasts while the turn is earlier than its turn, or is its turn and the phase is not later than its phase |
| ContinuousEffects.EndOfPhaseStaysOver | MTGLib/ContinuousEffect.cs:123-128 | once over, the intended end-of-phase effect stays over at every later time |
| ContinuousEffects.IsActive | MTGLib/ContinuousEffect.cs:117-140 | the object-bound durations throw `NotImplementedException`; Infinite is always active; end-of-turn lasts while the turn count has not passed its turn; end-of-phase uses the corrected test `EndOfPhaseActive` (see Findings): active while the turn is earlier than its turn, or is its turn and the phase is not later than its phase |
| ContinuousEffects.ActiveIsMonotone | MTGLib/ContinuousEffect.cs:117-140 | an effect that is over stays over at every later turn and phase |
| ContinuousEffects.ContinuousEffect.Create | MTGLib/ContinuousEffect.cs:48-63 | missing data means the default data; the effect is created exactly when the data is valid for the duration, and otherwise `ArgumentException` is thrown |
| ContinuousEffects.ContinuousEffect.CreateWith | MTGLib/ContinuousEffect.cs:64-68 | the effect is created exactly when the data is valid, and then holds the given modifications in order |
| ContinuousEffects.ContinuousEffect.AddModification | MTGLib/ContinuousEffect.cs:107-110 | the modification is appended; the triggered abilities are unchanged |
| ContinuousEffects.ContinuousEffect.AddTriggeredAbility | MTGLib/ContinuousEffect.cs:112-115 | the ability is appended; the modifications are unchanged |
| ContinuousEffects.ContinuousEffect.GetModifications | MTGLib/ContinuousEffect.cs:38-41 | the effect's modifications |
| ContinuousEffects.ContinuousEffect.Active | MTGLib/ContinuousEffect.cs:117-140 | `IsActive` at the given turn and phase |
| Mana.GetColorSymbol | MTGLib/Mana.cs:40-59 | one letter per colour: the six named single values get their own letter, every other mask prints `H` |
| Mana.GetColorCount | MTGLib/Mana.cs:73-79 | the loop counts the basic colours contained in the mask, at most five |
| Mana.ColorCounts | MTGLib/Mana.cs:73-79 | Generic has no colour, each basic colour one, and each guild pair two |
| Mana.CanThisPayForMe | MTGLib/Mana.cs:81-93 | a symbol of two or more colours throws `ArgumentException`; a one-colour symbol accepts only mana whose bits it contains |
| Mana.BasicCostAccepts | MTGLib/Mana.cs:81-93 | a basic-colour cost is paid by mana of that colour or generic mana, and by nothing else |
| Mana.GenericAndHybridCosts | MTGLib/Mana.cs:81-93 | a generic cost accepts any mana, and a hybrid cost throws |
| Mana.SymbolEquality | MTGLib/Mana.cs:110-121 | symbols are equal exactly when their colours are, so Azorius equals White with Blue |
| Mana.NewManaCost | MTGLib/Mana.cs:309-316 | `generic` generic symbols (none for a non-positive count) followed by the given symbols |
| Mana.Cmc | MTGLib/Mana.cs:338-349 | the loop's total is the number of symbols, each costing one |
| Mana.Identity | MTGLib/Mana.cs:328-337 | the loop ORs the symbol colours from Generic, as `IdentityOf` |
| Mana.IdentityContainsAll | MTGLib/Mana.cs:328-337 | the identity contains every symbol's colour |
| Mana.IdentityIsLeast | MTGLib/Mana.cs:328-337 | every colour containing all the symbols' colours contains the identity |
| Mana.Plus | MTGLib/Mana.cs:368-377 | the sum holds the symbols of both costs, and its length is the sum of theirs |
| Mana.PlusCommutes | MTGLib/Mana.cs:368-377 | `a + b` equals `b + a` under cost equality, and converted costs add |
| Mana.PlusIdentity | MTGLib/Mana.cs:328-377 | the identity of a sum is the union of the identities |
| Mana.Equals | MTGLib/Mana.cs:389-420 | the length check and the find-and-remove loop say equal exactly when the costs hold the same symbols with the same multiplicities |
| Mana.Subtract | MTGLib/Mana.cs:427-451 | the colour-by-colour loops build exactly `Minus(x, y)` |
| Mana.CountOf | MTGLib/Mana.cs:436-443 | the counting loop gives the number of symbols of that colour |
| Mana.MinusCounts | MTGLib/Mana.cs:427-451 | `x - y` holds, of each named colour, exactly the surplus of `x` over `y`, and no symbol of an unnamed mask |
| Mana.PlusMinusRoundTrip | UnitTests/ManaTests.cs:41-42 | `(a + b) - a` equals `b` when `b`'s colours are named enum values |
| Mana.MinusCovered | MTGLib/Mana.cs:427-451 | subtracting a cost that covers every symbol leaves an empty cost |
| Mana.CostToString | MTGLib/Mana.cs:351-366 | the one-pass loop builds `CostString`: the generic count in braces when positive, then the coloured symbols in order |
| Mana.CostStringExample | MTGLib/Mana.cs:351-366 | three generic and one red symbol print as `{3}{R}` whatever their order |
| Mana.PoolAdd | MTGLib/Mana.cs:162-168 | a symbol of more than one colour is refused with `ArgumentException`; otherwise the pool gains exactly that symbol |
| Mana.PoolRemove | MTGLib/Mana.cs:182-188 | reports whether an equal symbol was present, and then exactly one is removed; otherwise the pool is unchanged |
| Mana.AddRemoveRoundTrip | MTGLib/Mana.cs:162-188 | adding a symbol and removing it gives back the same pool, as a multiset |
| Mana.RemoveAddRoundTrip | MTGLib/Mana.cs:162-188 | removing a present symbol and adding it back gives the same pool, as a multiset |
| Mana.ManaPool.Count | MTGLib/Mana.cs:206 | the number of symbols in the pool |
| Mana.ManaPool.AddMana | MTGLib/Mana.cs:162-168 | succeeds exactly for symbols of at most one colour and then appends the symbol to both lists; a refusal changes nothing |
| Mana.ManaPool.AddManas | MTGLib/Mana.cs:170-174 | all succeed exactly when every symbol has at most one colour, and then the pool gains them in order |
| Mana.ManaPool.RemoveMana | MTGLib/Mana.cs:182-188 | result and pool follow `PoolRemove`; the temporary list loses the same symbol only when the pool did |
| Mana.ManaPool.RemoveManas | MTGLib/Mana.cs:190-199 | every symbol is tried in turn, and the result reports whether all were removed |
| Mana.ManaPool.Empty | MTGLib/Mana.cs:208-211 | the pool's symbol list is empty afterwards |
| Mana.PoolRemoveAllMeaning | MTGLib/Mana.cs:190-199 | removing several symbols succeeds exactly when the pool holds all of them with multiplicity, and then takes exactly those away |
| Mana.PoolScenario | UnitTests/ManaTests.cs:53-70 | the pool test: red, two greens, then removing red and green leaves a single green |
| EventTypes.PayManaCostAuto | MTGLib/MTGEventContainer.cs:10-23 | one mana payment per symbol of the cost, in order |
| EventTypes.DrawCardsAuto | MTGLib/MTGEventContainer.cs:31-37 | a container of `count` draws for the player |
| EventTypes.DiscardCardsAuto | MTGLib/MTGEventContainer.cs:44-50 | a container of one discard per object, in order |
| Abilities.NewResolution | MTGLib/Ability/Ability.cs:37-45 | keeps the effects, and a missing target array means no targets |
| Abilities.ConditionOrDefault | MTGLib/Ability/AbilityActivated.cs:76-80 | a supplied condition is kept and a missing one becomes the default |
| Abilities.NewActivatedAbility | MTGLib/Ability/AbilityActivated.cs:68-74 | a non-mana ability with the costs, the effects, the targets (none when missing) and the condition or the default |
| Abilities.NewManaAbility | MTGLib/Ability/AbilityActivated.cs:14-28 | a mana ability with the costs and effects, no targets, and the condition or the default |
| Abilities.ConditionHolds | MTGLib/Ability/AbilityActivated.cs:33-53 | the battlefield test compares the source's zone, the sorcery test reads the game's timing, and the controller test faults exactly for a missing object and otherwise compares the controller with the priority player |
| Abilities.DefaultConditionMeaning | MTGLib/Ability/AbilityActivated.cs:50-53 | the default condition holds exactly for a source on the battlefield whose controller has priority, and faults only for a battlefield entry without an object |
| Abilities.CostPayable | MTGLib/MTGEventCosts.cs:106-110 | tapping needs the source untapped and faults on a missing object; a mana symbol is always payable; a container asks its costs |
| Abilities.AllPayable | MTGLib/MTGEventContainer.cs:78-86 | true exactly when every cost can be paid; a fault comes from one of the costs |
| Abilities.CanBeActivated | MTGLib/Ability/AbilityActivated.cs:82-90 | false when the condition fails; true exactly when the condition holds and every cost can be paid |
| Abilities.AllDeclared | MTGLib/Ability/Ability.cs:70-76 | true exactly when every target of the list is declared |
| Abilities.ResolutionEvents | MTGLib/Ability/Ability.cs:68-81 | faults with `InvalidOperationException` exactly when some target is undeclared; otherwise one effect event per effect, in order, each sharing the resolution's targets |
| Abilities.StaticAbility.AddModification | MTGLib/Ability/Ability.cs:18-21 | the modification is appended |
| Abilities.AddInOrder | MTGLib/Ability/Ability.cs:18-26 | modifications added one by one come back in the order they were added |
| Targets.GetPlayer | MTGLib/Target.cs:26-32 | succeeds exactly on a player value, giving its player; throws `InvalidOperationException` otherwise |
| Targets.GetOid | MTGLib/Target.cs:33-39 | succeeds exactly on an object value, giving its identifier; throws `InvalidOperationException` otherwise |
| Targets.ExactlyOneVariant | MTGLib/Target.cs:41-42 | every value is a player or an object, never both, and exactly one accessor succeeds |
| Targets.NewTargetSpec | MTGLib/Target.cs:70-73 | exactly one target, with the given condition |
| Targets.NewTargetSpecBounded | MTGLib/Target.cs:75-79 | the given bounds and condition |
| Targets.ObjectOptions | MTGLib/Target.cs:105-113 | the object candidates are exactly the keys other than the source that meet the condition |
| Targets.PlayerOptions | MTGLib/Target.cs:115-122 | the player candidates are exactly the players `0..n-1` that meet the condition |
| Targets.DeclareSpec | MTGLib/Target.cs:81-99 | the target is declared exactly when `Deliver` hands over a submission, and then it stores that submission, whose size is within its bounds; a cancelled choice leaves the target as it was; the answers are consumed as `Deliver` consumes them |
| Targets.DeclareAnswers | MTGLib/Target.cs:81-99 | the first valid-sized submission declares the target with exactly that list, and a cancel leaves the target as it was |
| Targets.Target.GetAllTargets | MTGLib/Target.cs:101-125 | the two loops collect the object candidates, then the player candidates |
| Targets.Target.Declare | MTGLib/Target.cs:81-99 | declared state, stored list and remaining answers follow `DeclareSpec` |
| GameState.FindZone | MTGLib/Event/MTGEvent.cs:17 | `FindZoneFromOID`: a found zone is a zone of the game that lists the object; no zone is found exactly when no zone of the game lists it |
| GameState.ImportLibrariesAsWritten | MTGLib/MTG.cs:92-99 | as written, every card of every library is imported with owner 0, because `playerIndex` is reset inside the loop |
| GameState.ImportLibraries | MTGLib/MTG.cs:92-107 | as intended, the cards of library `i` are imported with owner `i`, and nothing else about them changes |
| GameState.ImportOwnerAsWrittenIsWrong | MTGLib/MTG.cs:94-99 | a card in the second library gets owner 0 as written and owner 1 as intended |
| GameState.ImportOwners | MTGLib/MTG.cs:92-107 | every imported card is the given card with its owner set to its library's index; as written the owner is always 0 |
| GameState.LoadLibraries | MTGLib/MTG.cs:90-109 | loading the libraries adds objects and library entries only: zones, players, pending abilities and targets are otherwise kept |
| GameState.LoadCardsBases | MTGLib/MTG.cs:96-104 | loading one library puts its cards, in reverse order, at the front of that library, and keeps every object already there |
| GameState.LoadLibrariesShape | MTGLib/MTG.cs:90-109 | loading into empty library zones makes library `k` list library `k`'s cards in reverse order |
| GameState.NewGameFacts | MTGLib/MTG.cs:90-109 | a new game is consistent, has one new player per library, nothing pending, empty zones other than the libraries, and each library lists its cards with that player as owner |
| GameState.InitialConsistent | MTGLib/MTG.cs:12-22 | the empty game is consistent: zones distinct and complete, objects all listed, identifiers below the next one |
| GameState.FreshOid | MTGLib/MTGObject.cs:12-15 | in a consistent game a new identifier names no object and is in no zone |
| GameState.TapKeeps | MTGLib/Event/MTGEvent.cs:14-29 | setting or clearing the tapped flag keeps the game consistent |
| GameState.MoveKeeps | MTGLib/Event/MTGEvent.cs:114-128 | a zone move keeps the game consistent, whether or not it succeeds |
| GameState.AddManaKeeps | MTGLib/Event/MTGEvent.cs:68-77 | adding mana keeps the game consistent |
| GameState.RemoveManaKeeps | MTGLib/Event/MTGEvent.cs:92-100 | removing mana keeps the game consistent |
| GameState.LifeKeeps | MTGLib/Event/MTGEvent.cs:155-195 | a life change keeps the game consistent |
| GameState.CreateKeeps | MTGLib/Event/MTGEventActions.cs:62-70 | creating an object on the stack keeps the game consistent |
| GameState.DeleteKeeps | MTGLib/Event/MTGEventActions.cs:72-75 | deleting an object keeps the game consistent |
| GameState.TapRoundTrip | MTGLib/Event/MTGEvent.cs:14-53 | tapping an untapped object and untapping it gives back exactly the same game, and so does the mirror |
| GameState.MoveRoundTrip | MTGLib/Event/MTGEvent.cs:114-128 | a successful move between different zones is undone by the move back, which succeeds too, up to the order within zones |
| GameState.AddManaRoundTrip | MTGLib/Event/MTGEvent.cs:68-77 | after adding a symbol, removing it succeeds and gives back the pool up to order |
| GameState.RemoveManaRoundTrip | MTGLib/Event/MTGEvent.cs:92-100 | removing a present symbol and adding it back gives back the pool up to order |
| GameState.LifeRoundTrip | MTGLib/Event/MTGEvent.cs:155-195 | a life change is undone exactly by the opposite change |
| GameState.PendingRoundTrip | MTGLib/Event/MTGEventActions.cs:32-43 | an entry pushed onto the pending list and removed again gives back exactly the same list |
| GameState.CreateRoundTrip | MTGLib/Event/MTGEventActions.cs:62-75 | the new object gets the next identifier, and deleting it gives back the game up to the identifier counter |
| GameState.TargetRoundTrip | MTGLib/Event/MTGEventActions.cs:169-177 | declaring an undeclared target and resetting it gives back exactly the same game |
| GameState.MoveRespects | MTGLib/Event/MTGEvent.cs:114-128 | a move has the same outcome on two games that hold the same things up to order, and leaves them holding the same things |
| Games.LoadAll | MTGLib/MTG.cs:92-108 | the constructor's two loops give exactly `LoadLibraries` of the libraries |
| Games.Game.constructor | MTGLib/MTG.cs:90-109 | the new game's state is `NewGameState` of the libraries, with every declared target undeclared |
| Games.Game.SetTapped | MTGLib/Event/MTGEvent.cs:22-28 | outcome and new state are `TapStep`: a missing object faults, and otherwise only its tapped flag changes |
| Games.Game.MoveObject | MTGLib/Event/MTGEvent.cs:121-127 | outcome and new state are `MoveStep`: removal from the old zone, then insertion at the front of the new one |
| Games.Game.AddMana | MTGLib/Event/MTGEvent.cs:70 | outcome and new state are `AddManaStep` |
| Games.Game.RemoveMana | MTGLib/Event/MTGEvent.cs:94 | outcome and new state are `RemoveManaStep`: whether the symbol was there, and the pool without it |
| Games.Game.ChangeLife | MTGLib/Event/MTGEvent.cs:160 | outcome and new state are `LifeStep`: a missing player faults; otherwise only that player's life moves by the amount |
| Games.Game.PushPending | MTGLib/Event/MTGEventActions.cs:32-38 | outcome and new state are `PushPendingStep`: an entry already pending faults, otherwise it is appended |
| Games.Game.RemovePending | MTGLib/Event/MTGEventActions.cs:40-43 | the first occurrence of the entry is removed from the pending list |
| Games.Game.CreateOnStack | MTGLib/Event/MTGEventActions.cs:62-70 | outcome and new state are `CreateStep`: a fresh identifier for the object, on top of the stack |
| Games.Game.DeleteObject | MTGLib/Event/MTGEventActions.cs:72-75 | the object is gone, and so is its identifier from every zone |
| Games.Game.ClearDamage | MTGLib/Phase.cs:144-147 | a missing object faults with nothing changed; otherwise only its marked damage becomes 0 |
| Games.Game.SetTarget | MTGLib/Event/MTGEventActions.cs:169-177 | outcome and new state are `TargetStep`: a missing target faults, otherwise only its state changes |
| Games.Game.DeclareTarget | MTGLib/Event/MTGEventActions.cs:169-172 | a missing target faults and changes nothing; otherwise the outcome, new target state and remaining answers follow `DeclareSpec`, and a cancel leaves the game as it was |
| Games.Game.NextManaAnswer | MTGLib/MTGEventCosts.cs:52-60 | the first remaining answer is taken off the list; with none left the payment is cancelled |
| EventTree.Events | MTGLib/Event/MTGEvent.cs:316-331 | the events of the recorded children, one per child, in the order they were pushed |
| EventTree.Pushes | MTGLib/Event/MTGEvent.cs:342-353 | one trigger push per entry the scan finds, in order |
| EventTree.Declares | MTGLib/Event/MTGEventActions.cs:122-131 | one `DeclareTargetEvent` per target of the resolution, in order |
| EventTree.Bound | MTGLib/Event/MTGEventActions.cs:134-144 | each cost of the ability or card bound to the source, in order |
| EventTree.OwnKeeps | MTGLib/Event/MTGEvent.cs:322-323 | every event's own action and its `RevertAction` keep the game consistent |
| EventTree.EffKeeps | MTGLib/Event/MTGEvent.cs:355-361 | applying any recorded event, children and trigger pushes included, keeps the game consistent |
| EventTree.UndoKeeps | MTGLib/Event/MTGEvent.cs:376-387 | reverting any recorded event keeps the game consistent |
| EventTree.EffAllPlayers | MTGLib/MTG.cs:12 | no run of recorded events adds or removes a player: the list of players is filled once, before the game starts |
| EventTree.UndoRespects | MTGLib/Event/MTGEvent.cs:376-387 | a revert does the same thing to two games that hold the same things up to order |
| EventTree.SimpleRoundTrip | MTGLib/Event/MTGEvent.cs:14-100 | a successful tap, untap, mana addition or mana removal followed by its `RevertAction` gives back the game up to order |
| EventTree.OtherRoundTrip | MTGLib/Event/MTGEvent.cs:114-195 | a successful move, life change, ability object creation or first declaration followed by its `RevertAction` gives back the game up to order |
| EventTree.PushesEff | MTGLib/Event/MTGEvent.cs:342-353 | applying recorded trigger pushes appends their entries to the pending list, each new, and changes nothing else |
| EventTree.PushesUndo | MTGLib/Event/MTGEventActions.cs:40-43 | reverting recorded trigger pushes, last to first, removes exactly their entries again |
| EventTree.PrimitiveShape | MTGLib/Event/MTGEvent.cs:355-361 | a successful event with an own action records only the trigger pushes its check made |
| EventTree.PrimitiveRestores | MTGLib/Event/MTGEvent.cs:355-387 | a successful event with an own action and no irreversible part, then its revert, gives back the game up to order |
| EventTree.Net | MTGLib/Event/MTGEvent.cs:333-387 | revert symmetry: in a consistent game, a recorded application that succeeded is undone by its revert and one that failed changed nothing, up to order, when the recording is clean (`Clean`): every step that succeeded can be reverted, every failure that did not revert its children had no child that succeeded, and every target a step declared was undeclared before |
| EventTree.NetAll | MTGLib/Event/MTGEvent.cs:333-340 | applying clean attempts and reverting the successful ones, last to first, gives back the game |
| EventTree.FailAll | MTGLib/Event/MTGEvent.cs:333-340 | clean attempts that all failed left the game holding the same things |
| Engine.RunsSnoc | MTGLib/Event/MTGEvent.cs:325-331 | `PushChild`: a child applied after the children so far is recorded after them, and its change follows theirs |
| Engine.PushAll | MTGLib/Event/MTGEvent.cs:342-353 | `CheckTriggers`: the children so far are kept and one trigger push per entry follows them, and the game is what applying them gives; an `InvalidOperationException` exactly when an entry is already pending or comes twice, and otherwise every entry is pending after the old ones |
| Engine.Finish | MTGLib/Event/MTGEvent.cs:355-361 | `Apply` after the action: on a success, except for a trigger push, the trigger pushes are recorded and the result is a run of the event; a fault exactly when an entry the scan finds is already pending or comes twice, and otherwise the outcome is kept and those entries are pending after the old ones |
| Engine.ApplyPush | MTGLib/Event/MTGEventActions.cs:32-38 | a fault exactly when the entry is already pending; otherwise it succeeds and the entry is appended |
| Engine.ApplyTap | MTGLib/Event/MTGEvent.cs:14-48 | a run of the tap or untap in the old game, which succeeds only for an object on the battlefield in the other position and then flips its tapped flag; the new game is that run's effect; a fault exactly for an object listed on the battlefield but missing (`KeyNotFoundException`) or a trigger entry already pending (`PrimOutcome`) |
| Engine.ApplyMana | MTGLib/Event/MTGEvent.cs:68-95 | a run of the mana event: an addition always succeeds, a removal succeeds exactly when the pool held the symbol; the new game is that run's effect; a fault exactly for a player out of range, a symbol of more than one colour added, or a trigger entry already pending (`PrimOutcome`) |
| Engine.ApplyMove | MTGLib/Event/MTGEvent.cs:114-123 | a run of the move: refused for the same zone twice or an object not in the old zone, otherwise the zone move; the new game is that run's effect; a fault exactly for a missing old zone that matches (`NullReferenceException`), a fault of the zone move, or a trigger entry already pending (`PrimOutcome`) |
| Engine.ApplyLife | MTGLib/Event/MTGEvent.cs:155-190 | a run of the life gain or loss: refused for an amount that is not positive, otherwise the player's life moves by it; the new game is that run's effect; a fault exactly for a positive amount and a player out of range, or a trigger entry already pending (`PrimOutcome`) |
| Engine.ApplyGenerate | MTGLib/Event/MTGEventActions.cs:62-70 | a run of the creation: a new ability object under a fresh identifier on top of the stack, remembered for the revert; the new game is that run's effect; a fault exactly when the game has no stack or a trigger entry is already pending (`PrimOutcome`) |
| Engine.ApplyDeclare | MTGLib/Event/MTGEventActions.cs:169-172 | a run of the declaration: `Declare` with the target state it replaced remembered; on a success the target becomes, and the node records, the state `DeclareSpec` gives for the target's spec, its old state and the answers, and in every case without a fault the target answers left are those `DeclareSpec` leaves; a refused declaration leaves the targets as they were; the new game is that run's effect; a fault exactly for an unknown target (`KeyNotFoundException`) or a trigger entry already pending, and a success exactly when `DeclareSpec` accepts an answer (`PrimOutcome`) |
| Engine.ApplyDamage | MTGLib/Event/MTGEvent.cs:211-226 | a run of the damage event: refused for an amount that is not positive, a player loses that much life whatever the loss does, damage to an object faults; the new game is that run's effect; a fault exactly as `SimpleFault` says: damage to an object (`NotImplementedException`), a fault of the loss, or a trigger entry already pending |
| Engine.ApplyDraw | MTGLib/Event/MTGEvent.cs:238-247 | a run of the draw: refused on an empty library, where the corrected `Get` (see Findings) gives no card, otherwise the top card moved from library to hand and the draw succeeds when the move does; the new game is that run's effect; a fault exactly for a player out of range (`ArgumentOutOfRangeException`), a missing library (`KeyNotFoundException`), a fault of the move, or a trigger entry already pending (`SimpleFault`) |
| Engine.ApplyDiscard | MTGLib/Event/MTGEvent.cs:263-281 | a run of the discard: refused unless the card is in some player's hand, otherwise moved to that player's graveyard; the new game is that run's effect; a fault exactly when the move faults or a trigger entry is already pending (`SimpleFault`) |
| Engine.ApplyPlayLand | MTGLib/Event/MTGEventActions.cs:13-17 | a run of the land play: the source moved from the zone holding it to the battlefield; the new game is that run's effect; a fault exactly when the move faults, a source in no zone included (`NullReferenceException`), or a trigger entry is already pending (`SimpleFault`) |
| Engine.RevertOwn | MTGLib/Event/MTGEvent.cs:26-195 | the game becomes the event's `RevertAction` of the old one |
| Engine.Revert | MTGLib/Event/MTGEvent.cs:376-387 | the game becomes the revert of the recorded event in the old one |
| Engine.RevertAll | MTGLib/Event/MTGEvent.cs:333-340 | the successful attempts are reverted, last to first |
| Engine.Apply | MTGLib/Event/MTGEvent.cs:355-361 | any event: when it does not fault, the result is a run of that event in the old game and the new game is what the run means; the mana answer list only shrinks; a simple event faults exactly as `SimpleFault` says |
| Engine.ApplyAll | MTGLib/MTGEventContainer.cs:113-122 | every event of the list is pushed in turn and recorded, whatever each one's outcome; an empty list records nothing and cannot fault |
| Engine.ApplyGroup | MTGLib/MTGEventContainer.cs:113-122 | a run of the group: an effect pushes its events and succeeds whatever they do; a container pushes every event and succeeds when all of them did, reverting none; a group with no events faults exactly when its own trigger entries are not new |
| Engine.ApplyUntilFail | MTGLib/Event/MTGEventActions.cs:119-144 | the steps are pushed in order until one fails: all of them succeeded, or only the last pushed failed |
| Engine.ApplyActivate | MTGLib/Event/MTGEventActions.cs:109-155 | a run of the activation: unless it is a mana ability, the ability object and every target declaration, then every cost, stopping at and reverting after a failed step; a mana ability then pushes its resolution's events |
| Engine.ActivateShaped | MTGLib/Event/MTGEventActions.cs:109-155 | the outcomes of an activation: its plan completed, or stopped at a failed step with everything reverted when something had been pushed |
| Engine.ApplyCast | MTGLib/Event/MTGEventActions.cs:188-224 | a run of the cast: the card moved to the stack, failing with nothing else pushed if it cannot; then every target declared and every cost paid, a failed step reverting everything pushed; it faults exactly as the move to the stack does, a refused move is a failure and not a fault, and a card missing after the move is a `KeyNotFoundException` |
| Engine.ApplyCost | MTGLib/MTGEventCosts.cs:101-104 | a run of the cost with its source set to the given object; the new game is that run's effect; a tap cost faults exactly as `SimpleFault` says |
| Engine.ApplyTapSelf | MTGLib/MTGEventCosts.cs:19-22 | a run of the tap cost: a tap of the source is pushed and the cost succeeds when the tap does; a fault exactly when the tap faults or a trigger entry is already pending (`SimpleFault`) |
| Engine.ApplyCostContainer | MTGLib/MTGEventContainer.cs:88-99 | a run of the cost container: refused, without a fault, when empty; otherwise every cost pushed in turn and a success when all of them succeeded |
| Engine.ApplyPayMana | MTGLib/MTGEventCosts.cs:38-84 | a run of the payment by the source's controller: a cancel reverts everything pushed and fails, a spent symbol is removed from the pool and ends the payment, a mana ability is activated and the loop goes on; the mana answer list only shrinks; a source that does not exist is a `KeyNotFoundException` and a controller that is not a player an `ArgumentOutOfRangeException`; before each choice every symbol of the pool goes through `CanThisPayForMe`, so a cost symbol of two or more colours with a non-empty pool at the start is an `ArgumentException` |
| Engine.PayShaped | MTGLib/MTGEventCosts.cs:38-84 | the outcomes of a payment: mana abilities activated, then one successful removal from the controller's pool, or a failure with everything reverted |
| Engine.Resolve | MTGLib/Ability/Ability.cs:53-66 | an undeclared target faults; otherwise one effect event is pushed per effect, in order |
| Engine.ApplyThenRevert | MTGLib/Event/MTGEvent.cs:355-387 | applying an event and then reverting it leaves a consistent game holding the same things, when the recording is clean (`Clean`): every step that succeeded can be reverted, every failure that did not revert its children had no child that succeeded, and every target a step declared was undeclared before; a simple event faults exactly as `SimpleFault` says |
| Engine.SimpleNoFault | MTGLib/Event/MTGEvent.cs:355-361 | in a consistent game where no object is in two zones, a simple event that names existing players, zones and targets, adds single-coloured mana, damages a player and whose trigger entries are new applies without a fault, so `Engine.Apply` returns a run of it |
| Costs.CanPay | MTGLib/Cost.cs:9-56 | mana can always be tried; tapping is possible exactly when the source is on the battlefield, exists and is untapped, and a source the lookup finds but the objects lack faults |
| Costs.PayTapSelf | MTGLib/Cost.cs:26-30 | the result is `CanPay`, and only a payable cost taps the source |
| Costs.TapSelfRoundTrip | MTGLib/Cost.cs:26-35 | paying by tapping and then reversing the payment gives back exactly the same game |
| Costs.AddAllAppends | MTGLib/Cost.cs:64-67 | giving back single-coloured symbols appends exactly those symbols to the controller's pool and changes nothing else |
| Costs.AddAllRefuses | MTGLib/Cost.cs:64-67 | a symbol of two colours is refused with an argument fault, whatever came before it |
| Costs.AddAllStops | MTGLib/Cost.cs:64-67 | once a symbol is refused, the symbols after it are not given back |
| Costs.ReversePay | MTGLib/Cost.cs:32-35 | untaps the source for a tap cost, and gives the mana cost back to the source's controller for a mana cost |
| Controllers.PassSpec | MTGLib/MTG.cs:140-176 | priority moves on until `n` passes in a row, then a non-empty stack resolves with priority back to the active player, and an empty stack ends the phase (and the turn after Cleanup); each branch holds exactly when its condition does |
| Controllers.QuietPassesOn | MTGLib/MTG.cs:140-155 | while the passes in a row stay below the player count, each pass only hands priority to the next player, round the table |
| Controllers.QuietPassesEnd | MTGLib/MTG.cs:140-176 | from `c` passes in a row, exactly `n - c` more passes end priority: the stack resolves, or the phase ends when the stack is empty |
| Controllers.OnePassEndsNextPhase | MTGLib/MTG.cs:140-176 | the pass count is not reset when a phase ends, so one more pass without an action ends the next phase too |
| Controllers.UntapEvents | MTGLib/Phase.cs:50-62 | one untap per battlefield object the active player controls, and only those; a battlefield entry with no object faults |
| Controllers.UntapKeeps | MTGLib/Event/MTGEvent.cs:38-53 | an untap leaves the zones, the objects and their attributes as they were |
| Controllers.DamageCleared | MTGLib/Phase.cs:143-147 | every battlefield object has no damage marked and is otherwise unchanged; objects elsewhere are untouched |
| Controllers.EmptiedPools | MTGLib/Phase.cs:156-162 | every player's mana pool is empty, with life and loss kept |
| Controllers.EmptiedPoolsIdempotent | MTGLib/Phase.cs:156-162 | emptying the pools a second time changes nothing |
| Controllers.CollectedHolds | MTGLib/MTG.cs:120-128 | a modification is collected exactly when some continuous effect holds it |
| Controllers.CollectedCount | MTGLib/MTG.cs:120-128 | the number collected is the sum of the effects' counts |
| Controllers.Controller.constructor | MTGLib/MTG.cs:85-109 | a new game as the constructor builds it, a turn already in the state `Turn.Init` leaves (see Left out), no passes counted, no effects |
| Controllers.Controller.PassPriority | MTGLib/MTG.cs:140-176 | count, turn and outcome follow `PassSpec`; only a phase end changes the game, and only it can fault; after a phase end the game is what starting the new phase in the new turn state does (`PhaseStarted`: untap, draw or cleanup), and the pass faults exactly when that start does, with its fault; which starts fault is stated only in part (see Left out) |
| Controllers.Controller.StartCurrentPhase | MTGLib/Phase.cs:43-154 | the untap step untaps as `UntapEvents` says, the draw step draws the active player one card, the cleanup step discards and clears damage, other phases change nothing |
| Controllers.Controller.StartUntap | MTGLib/Phase.cs:50-62 | the untaps pushed are exactly `UntapEvents` of the battlefield, and the game is what applying them gives |
| Controllers.Controller.StartCleanup | MTGLib/Phase.cs:133-150 | the chosen cards are discarded, then the game is that state with `DamageCleared` on the battlefield |
| Controllers.Controller.EndCurrentPhase | MTGLib/Phase.cs:156-164 | the players become `EmptiedPools` of the old players |
| Controllers.Controller.UpdateAllModifications | MTGLib/MTG.cs:120-128 | the modifications become `Collected` of the continuous effects, effect by effect, in order |
| Players.Player.constructor | MTGLib/Player.cs:9-22 | a new player has 20 life, has not lost, and has an empty library, hand and graveyard |
| Choices.Choice.constructor | MTGLib/Choice.cs:9-28 | a new choice is unresolved with no choices made and takes exactly one item by default |
| Targets.Target.constructor | MTGLib/Target.cs:62-73 | a new target is undeclared, has no targets set and takes exactly one item |
| Targets.Target.Bounded | MTGLib/Target.cs:75-79 | the three-argument constructor sets the bounds, and the target is still undeclared |
| Targets.Target.Reset | MTGLib/Event/MTGEventActions.cs:174-177 | the target is undeclared again with no targets set |
| Zones.Zone.constructor | MTGLib/Zone.cs:10 | a new zone is empty |
| Counters.CounterStore.constructor | MTGLib/Counter.cs:16 | a new store holds no counters |
| Mana.ManaPool.constructor | MTGLib/Mana.cs:151-158 | a new pool and its working copy are empty |
| Turns.Turn.constructor | MTGLib/MTG.cs:24-37 | a new turn, given the values `Init` sets (see Left out): turn 0, player 0 active and holding priority, the untap step |
| ContinuousEffects.ContinuousEffect.Make | MTGLib/ContinuousEffect.cs:48-63 | with valid duration data, the effect keeps its source, duration and data and starts with no modifications |
| Abilities.StaticAbility.constructor | MTGLib/Ability/Ability.cs:13-16 | the ability's modifications are exactly the given ones, in order |
| Engine.ActivateMana | MTGLib/Event/MTGEventActions.cs:146-152 | after its costs are paid, a mana ability pushes the events of its resolution, and the result is a run of the activation; an undeclared target in the resolution is an `InvalidOperationException` |
| Engine.RevertKids | MTGLib/Event/MTGEvent.cs:333-340 | the children not already reverted are reverted, last to first |
| EventTree.RevertableUndo | MTGLib/Event/MTGEvent.cs:365-387 | reverting a revertable event that is not a cost runs its own `RevertAction` and then reverts its children |
| EventTree.OwnRoundTrip | MTGLib/Event/MTGEvent.cs:14-195 | for every event with an own action except the trigger push, a success followed by its `RevertAction` gives back the game up to order |

## Left out

- `Zone.Shuffle` and the shuffle and opening draw in `MTG.Start`: they depend on `System.Random`.
- `ManaPool.PayFor`, `GetMyOwnerIndex` and the mana-cost branch of `Cost.Pay`: a blocking choice loop that creates and deletes ability objects through the global game. `PayManaCostEvent` is modelled in their place (`Engine.ApplyPayMana`).
- Choice delivery (`PushChoice`, the cross-thread handoff, `ConsoleResolve`, `Prompt`): every choice's outcome comes from an answer list given to the game.
- `ManaChoice`'s own check of the answer is not part of this model: a mana answer is used as given.
- `EventContainerDiscardCards.Auto(source, player, count)`: the cleanup discard takes the chosen cards as the `discards` argument of `PassPriority`, instead of computing `Hand.DiscardsNeeded` and asking the player.
- `Stack.Resolve`: `PassPriority` reports `StackResolved` and leaves the game as it is.
- `MTG.StateBasedActions` has no logic. The console output, `ToString` of events, the web viewer and the test application are also out.
- The trigger registry (`MTG.TriggeredAbilities` filtered by `DoesTrigger`) is a function the game is given. The entries it gives for a `PushTriggeredAbilityEvent` are not pushed, which keeps the event tree finite.
- `EffectEvent`'s closure is card content. It is modelled as the list of events it pushes.
- The layered attribute pipeline expected by the modification test (`PowerMod`, `ColorMod`, `CalculateBoardState`) is not in the code. `CalculateAttributes` is modelled as the stub it is.
- The `Timestamp` test: its class is not part of this model.
- Engine methods (`Engine.Apply` and the `Engine.Apply…` family): after an `Err` result (a fault the source would throw) the new game state is not described.
- Engine.Apply: for an event that is not `Simple` (a group, an activation, a cast, a mana payment or a cost container) the contract does not say when it faults. Such a fault comes from a child, and stating it needs a well-formedness condition on every event, ability and answer reachable from the event, kept through every state the children pass through. `Engine.ApplyThenRevert` inherits this.
- Engine.ApplyAll: a fault is a child's fault, but which child faults is not stated.
- Engine.ApplyGroup: only the fault of a group with no events is stated.
- Engine.ApplyUntilFail: when a step faults is not stated.
- Engine.ApplyActivate: when the ability object, a declaration, a cost or the trigger scan faults is not stated.
- Engine.ActivateMana: only the fault for an undeclared target is stated; when a resolution event faults is not.
- Engine.ApplyCast: only the faults of the move to the stack and of a card missing after it are stated; those of the declarations, the costs and the trigger scan are not.
- Engine.ApplyCostContainer: only the outcome of an empty container is stated; when a cost faults is not.
- Engine.ApplyPayMana: the `CanThisPayForMe` test runs before every choice, as in the source, but its `ArgumentException` is promised only for the first round; `EventTree.Runs` does not record that every later round of a payment of a cost of two or more colours found the pool empty, and the faults of the pushes are not stated.
- Engine.Resolve: only the fault for an undeclared target is stated; that a resolution whose events do not fault succeeds is not.
- Engine.RevertOwn: a fault of an inverse step is not raised. A missing object, player or target makes that step change nothing. The source would throw there.
- `MTGObject.Costs` and `MTGObject.Targets`, which `CastSpellEvent` reads, are not declared in MTGObject.cs; `Objects.MtgObject` carries them as the `costs` and `targets` fields.
- `Objects.DefaultAttributes`: the C# default name and mana cost are `null`; the model uses the empty name and the empty cost.
- Controllers.Controller.StartCurrentPhase: the faults of the draw and cleanup steps are not given (`PhaseStarted` states them only on success), nor the faults of the untaps; the same holds for StartUntap, StartCleanup and PassPriority below.
- Controllers.Controller.StartUntap: a missing battlefield and a refused `UntapEvents` are stated to fault; a fault of one of the pushed untaps is not stated.
- Controllers.Controller.StartCleanup: only the success case is stated; the faults of the discard and of a missing battlefield are not.
- Controllers.Controller.PassPriority: it faults exactly when the phase start faults, with the same fault, but which starts fault is known only as far as the three lines above say.
- `Phase.EndCurrentPhase` is modelled (`Controllers.Controller.EndCurrentPhase`), but `PassPriority` never calls it, as in the source.
- The `default` branch of `Phase.StartCurrentPhase` throws for a phase outside the enum. The modelled phase type has no such value.
- The observable consequence of `CostEvent`'s sealed revert, in UnitTests/MTGTests.cs:294-319, is covered only by the general revert theorems. The scenario with its cards is not modelled.
- The source never sets `op` on an `IntMod` or `ManaCostMod`, so as written every one of them overrides (`Modifications.DefaultIntModOverrides`). The `Add` and `Subtract` arithmetic is still modelled for an operation given explicitly (`Modifications.ModifyInt`, `Modifications.ModifyCost`).
- Turns.Turn.constructor: `Turn` is a C# struct, and `new Turn()` leaves `phase` null until `MTG.Start` calls `Init` (MTGLib/MTG.cs:85, 132). The model has no null phase, so a new turn already holds the values `Init` sets. `Controllers.Controller.constructor` inherits this.
- Engine.ApplyCostContainer: the inner costs are bound to the container's source before they are applied (`EventTree.Bound`). In the source, `PushChild` pushes them as they are (MTGLib/MTGEventContainer.cs:88-99). Their `source` is set only when an earlier `CanPay(source)` call on the container reached them (MTGLib/MTGEventCosts.cs:106-108). Without that call it stays null and the payment throws. The model does not capture that fault.
- Integers are unbounded: life totals, counters and turn counts do not wrap at 32 bits.

## Findings

| source | as written | input that shows it | evidently intended | confidence | as-written member | corrected member |
|---|---|---|---|---|---|---|
| MTGLib/Zone.cs:83-86 | `Get(0)` on an empty zone dereferences the null first node and throws | `Get(0)` on an empty zone | no identifier (null), as the zone test expects | high, not executed | Zones.ZoneGetAsWritten, Zones.EmptyGetFaults | Zones.ZoneGet, Engine.ApplyDraw |
| MTGLib/Player.cs:33-39 | `Mill` never decrements `count`: it moves the whole library and then faults popping the empty library | `Mill(1)` on a two-card library | exactly `count` cards moved to the graveyard, like `Draw` | high, not executed | Players.Player.MillAsWritten, Players.MillAsWrittenOvershoots | Players.Player.Mill |
| MTGLib/MTG.cs:92-99 | `playerIndex` is set to 0 inside the library loop, so every card is owned by player 0 | a second library holding one card | the cards of library `i` are owned by player `i` | high, not executed | GameState.ImportLibrariesAsWritten, GameState.ImportOwnerAsWrittenIsWrong | GameState.ImportLibraries |
| MTGLib/MTGObject.cs:126-151 | `indexes[i] = i` writes into an empty list, which throws as soon as one modification is active | one active modification | the reset attributes (the layer loop is empty) | high, not executed | Objects.CalculateAttributesAsWritten | Objects.CalculateAttributes |
| MTGLib/ContinuousEffect.cs:123-128 | an end-of-phase effect is over whenever the current phase is later than its phase, in any turn | an effect until Main1 of turn 2, checked in CombatStart of turn 1 | over only in a later turn, or in its turn after its phase | medium, not executed | ContinuousEffects.EndOfPhaseActiveAsWritten, ContinuousEffects.EndOfPhaseEndsEarly | ContinuousEffects.EndOfPhaseActive, ContinuousEffects.IsActive |
