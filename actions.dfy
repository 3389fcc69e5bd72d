/**
 * The action layer as functions on world states: one function per
 * `perform`, each giving the state afterwards and whether the action was
 * possible, and `Resolve`, which picks the function for an action value.
 * An action is bound to its acting entity for its whole life; in this model
 * it carries that entity's id, and the world is passed in explicitly instead
 * of being reached through `entity.gamemap.engine`.
 */
module Actions {
  import opened Wrappers
  import opened Entities
  import opened GameMaps
  import opened WorldStates

  datatype Action =
    | Pickup(actor: EntityId)
    | UseItem(actor: EntityId, item: EntityId, target: Option<Pos>)
    | Drop(actor: EntityId, item: EntityId, target: Option<Pos>)
    | Equip(actor: EntityId, item: EntityId)
    | Wait(actor: EntityId)
    | TakeStairs(actor: EntityId, downward: bool)
    | Melee(actor: EntityId, dx: int, dy: int)
    | Movement(actor: EntityId, dx: int, dy: int)
    | Bump(actor: EntityId, dx: int, dy: int)

  /**
   * What every caller of the action layer guarantees: the acting entity is
   * an actor on the map with inventory and equipment, an item action names
   * an item the actor carries, and an equip action an item that can be
   * equipped.
   */
  predicate Admissible(s: WorldState, a: Action)
    requires Valid(s)
  {
    ActorReady(s, a.actor) &&
    match a
    case UseItem(actor, item, _) => Carries(s, actor, item)
    case Drop(actor, item, _) => Carries(s, actor, item)
    case Equip(actor, item) => Carries(s, actor, item) && CarriedItem(s, actor, item).kind.equippable.Some?
    case _ => true
  }

  // ---------------------------------------------------------------------
  // PickupAction
  // ---------------------------------------------------------------------

  /** The inventory is at capacity: `len(inventory.items) >= inventory.capacity`. */
  predicate InventoryFullFor(s: WorldState, actor: EntityId)
    requires actor in s.inventories
  {
    |s.inventories[actor].items| >= s.inventories[actor].capacity
  }

  /** The state after the item stored at `k` has been picked up. */
  function AfterPickup(s: WorldState, actor: EntityId, k: nat): WorldState
    requires actor in s.inventories && k < |s.gameMap.entities|
  {
    var inv := s.inventories[actor];
    var item := s.gameMap.entities[k];
    AddMessage(Transfer(s, actor, RemoveAt(s.gameMap.entities, k), inv.(items := inv.items + [item])), PickedUp(item.id))
  }

  /**
   * `PickupAction.perform`: the first item in storage order lying where the
   * actor stands leaves the map and is appended to the actor's inventory,
   * unless the inventory is full; with no item there, nothing to pick up.
   */
  function PickupSpec(s: WorldState, actor: EntityId): (r: Resolution)
    requires Valid(s) && ActorReady(s, actor)
    ensures Valid(r.state) && ActorReady(r.state, actor)
    ensures r.outcome.Impossible? ==> r.state == s
    ensures r.outcome == Impossible(NothingToPickUp) <==> !ItemHere(s.gameMap, ActorPos(s, actor))
    ensures r.outcome == Impossible(InventoryFull) <==> ItemHere(s.gameMap, ActorPos(s, actor)) && InventoryFullFor(s, actor)
    ensures r.outcome == Ok <==> ItemHere(s.gameMap, ActorPos(s, actor)) && !InventoryFullFor(s, actor)
  {
    var here := ActorPos(s, actor);
    FirstAtNone(s.gameMap.entities, GroundItem, here);
    match FirstAt(s.gameMap.entities, GroundItem, here)
    case None => Resolution(s, Impossible(NothingToPickUp))
    case Some(k) =>
      if InventoryFullFor(s, actor) then Resolution(s, Impossible(InventoryFull))
      else
        PickupKeepsValid(s, actor, k);
        Resolution(AfterPickup(s, actor, k), Ok)
  }

  /**
   * A successful pickup moves exactly one item, one that lay where the actor
   * stands, from the map to the end of the actor's inventory: the inventory
   * grows by one, the map no longer holds the item, and nothing else but the
   * log changes.
   */
  lemma PickupTransfersItem(s: WorldState, actor: EntityId)
    requires Valid(s) && ActorReady(s, actor) && PickupSpec(s, actor).outcome.Ok?
    ensures
      var r := PickupSpec(s, actor).state;
      var before := s.inventories[actor].items;
      var after := r.inventories[actor].items;
      && |after| == |before| + 1
      && after[..|before|] == before
      && after[|before|].IsItem() && after[|before|].pos == ActorPos(s, actor)
      && multiset(r.gameMap.entities) + multiset{after[|before|]} == multiset(s.gameMap.entities)
      && after[|before|].id !in Ids(r.gameMap.entities)
      && r.log == s.log + [PickedUp(after[|before|].id)]
      && r == Transfer(s, actor, r.gameMap.entities, r.inventories[actor]).(log := r.log)
  {
    var k := FirstAt(s.gameMap.entities, GroundItem, ActorPos(s, actor)).value;
    PickupKeepsValid(s, actor, k);
    var after := PickupSpec(s, actor).state.inventories[actor].items;
    assert after == s.inventories[actor].items + [s.gameMap.entities[k]];
  }

  /**
   * The item taken is the first one, in storage order, lying where the actor
   * stands: every entity stored before it is not an item there, and the map
   * keeps all the others in their order.
   */
  lemma PickupTakesFirstItem(s: WorldState, actor: EntityId, k: nat)
    requires Valid(s) && ActorReady(s, actor)
    requires k < |s.gameMap.entities| && s.gameMap.entities[k].IsItem() && s.gameMap.entities[k].pos == ActorPos(s, actor)
    requires forall j :: 0 <= j < k ==> !(s.gameMap.entities[j].IsItem() && s.gameMap.entities[j].pos == ActorPos(s, actor))
    ensures InventoryFullFor(s, actor) ==> PickupSpec(s, actor) == Resolution(s, Impossible(InventoryFull))
    ensures !InventoryFullFor(s, actor) ==> PickupSpec(s, actor) == Resolution(AfterPickup(s, actor, k), Ok)
    ensures !InventoryFullFor(s, actor) ==>
              && PickupSpec(s, actor).state.gameMap.entities == RemoveAt(s.gameMap.entities, k)
              && PickupSpec(s, actor).state.inventories[actor].items == s.inventories[actor].items + [s.gameMap.entities[k]]
  {
    var f := FirstAt(s.gameMap.entities, GroundItem, ActorPos(s, actor));
    assert Matches(s.gameMap.entities[k], GroundItem, ActorPos(s, actor));
    assert f == Some(k);
  }

  lemma PickupKeepsValid(s: WorldState, actor: EntityId, k: nat)
    requires Valid(s) && ActorReady(s, actor)
    requires k < |s.gameMap.entities| && s.gameMap.entities[k].IsItem()
    requires |s.inventories[actor].items| < s.inventories[actor].capacity
    ensures
      var inv := s.inventories[actor];
      var r := Transfer(s, actor, RemoveAt(s.gameMap.entities, k), inv.(items := inv.items + [s.gameMap.entities[k]]));
      && Valid(r) && ActorReady(r, actor)
      && s.gameMap.entities[k].id !in Ids(r.gameMap.entities)
  {
    var inv := s.inventories[actor];
    var es := s.gameMap.entities;
    var item := es[k];
    RemoveAtIds(es, k);
    assert item in es;
    AppendIds(inv.items, item);
    var inv' := inv.(items := inv.items + [item]);
    TransferKeepsValid(s, actor, RemoveAt(es, k), inv');
    var self := es[ActorIndex(s, actor)];
    assert self in multiset(RemoveAt(es, k)) + multiset{item};
    assert self in RemoveAt(es, k);
  }

  // ---------------------------------------------------------------------
  // ItemAction
  // ---------------------------------------------------------------------

  /** `ItemAction.target_xy`: the given target, or where the actor stands when omitted. */
  function TargetXY(s: WorldState, actor: EntityId, target: Option<Pos>): Pos
    requires Valid(s) && ActorReady(s, actor)
  {
    match target
    case Some(p) => p
    case None => ActorPos(s, actor)
  }

  /** `ItemAction.target_actor`: the actor standing on the target, if any. */
  function ItemTargetActor(s: WorldState, actor: EntityId, target: Option<Pos>): (t: Option<nat>)
    requires Valid(s) && ActorReady(s, actor)
    ensures t.Some? ==> t.value < |s.gameMap.entities| && s.gameMap.entities[t.value].IsActor()
    ensures t.Some? ==> s.gameMap.entities[t.value].pos == TargetXY(s, actor, target)
    ensures t.None? <==> forall e :: e in s.gameMap.entities ==> !(e.IsActor() && e.pos == TargetXY(s, actor, target))
    ensures target.None? ==> t.Some?
  {
    var i := ActorIndex(s, actor);
    assert Matches(s.gameMap.entities[i], Actor, TargetXY(s, actor, target)) || target.Some?;
    FirstAtNone(s.gameMap.entities, Actor, TargetXY(s, actor, target));
    GetActorAtLocation(s.gameMap, TargetXY(s, actor, target))
  }

  /**
   * `ItemAction.perform`: an item with a consumable has it activated with
   * this action as context; an item without one does nothing.
   */
  function UseItemSpec(s: WorldState, actor: EntityId, item: EntityId, target: Option<Pos>): (r: Resolution)
    requires Valid(s) && ActorReady(s, actor) && Carries(s, actor, item)
    ensures Valid(r.state) && ActorReady(r.state, actor)
    ensures r.outcome == Ok
    ensures r.state == s.(activations := r.state.activations)
    ensures !CarriedItem(s, actor, item).kind.consumable ==> r.state == s
    ensures CarriedItem(s, actor, item).kind.consumable ==>
              r.state.activations == s.activations + [Activation(actor, item, TargetXY(s, actor, target))]
    ensures target.None? && CarriedItem(s, actor, item).kind.consumable ==>
              r.state.activations[|s.activations|].target == ActorPos(s, actor)
  {
    if CarriedItem(s, actor, item).kind.consumable then
      Resolution(ActivateConsumable(s, actor, item, TargetXY(s, actor, target)), Ok)
    else
      Resolution(s, Ok)
  }

  // ---------------------------------------------------------------------
  // DropAction
  // ---------------------------------------------------------------------

  /** The item is equipped and is armour. */
  predicate Worn(s: WorldState, actor: EntityId, item: EntityId)
    requires Valid(s) && Carries(s, actor, item)
  {
    item in s.equipment[actor] && CarriedItem(s, actor, item).kind.equippable == Some(Armor)
  }

  /**
   * `DropAction.perform`: worn armour is refused with a message and no
   * exception; another equipped item is unequipped, then dropped; an
   * unequipped item is dropped.
   */
  function DropSpec(s: WorldState, actor: EntityId, item: EntityId): (r: Resolution)
    requires Valid(s) && ActorReady(s, actor) && Carries(s, actor, item)
    ensures Valid(r.state) && ActorReady(r.state, actor)
    ensures r.outcome == Ok
    ensures Worn(s, actor, item) ==> r.state == s.(log := s.log + [CannotDropWorn])
    ensures !Worn(s, actor, item) ==> !Carries(r.state, actor, item) && item !in r.state.equipment[actor]
  {
    if item in s.equipment[actor] then
      if CarriedItem(s, actor, item).kind.equippable == Some(Armor) then
        Resolution(AddMessage(s, CannotDropWorn), Ok)
      else
        UnequipKeepsItem(s, actor, item);
        var unequipped := ToggleEquip(s, actor, item);
        DropFacts(unequipped, actor, item);
        Resolution(InventoryDrop(unequipped, actor, item), Ok)
    else
      DropFacts(s, actor, item);
      Resolution(InventoryDrop(s, actor, item), Ok)
  }

  /** Unequipping changes only the equipment: the item is still carried, the actor still in place. */
  lemma UnequipKeepsItem(s: WorldState, actor: EntityId, item: EntityId)
    requires Valid(s) && ActorReady(s, actor) && Carries(s, actor, item) && item in s.equipment[actor]
    ensures
      var u := ToggleEquip(s, actor, item);
      && Valid(u) && ActorReady(u, actor) && Carries(u, actor, item)
      && u == s.(equipment := u.equipment)
      && u.equipment[actor] == s.equipment[actor] - {item}
      && ActorPos(u, actor) == ActorPos(s, actor)
      && CarriedItem(u, actor, item) == CarriedItem(s, actor, item)
  {
    assert EquipmentValid(s.equipment[actor], s.inventories[actor]);
    var u := ToggleEquip(s, actor, item);
    assert u.gameMap == s.gameMap;
    assert ActorIndex(u, actor) == ActorIndex(s, actor);
  }

  /** What `inventory.drop` leaves behind for an item that is not equipped. */
  lemma DropFacts(s: WorldState, actor: EntityId, item: EntityId)
    requires Valid(s) && ActorReady(s, actor) && Carries(s, actor, item) && item !in s.equipment[actor]
    ensures
      var d := InventoryDrop(s, actor, item);
      && Valid(d) && ActorReady(d, actor) && !Carries(d, actor, item)
      && d == s.(gameMap := d.gameMap, inventories := d.inventories)
  {
    var self := s.gameMap.entities[ActorIndex(s, actor)];
    assert self in InventoryDrop(s, actor, item).gameMap.entities;
  }

  /**
   * Dropping anything but worn armour hands the item back to the map: it
   * leaves the inventory and the equipment, the other carried items keep
   * their order and the capacity is unchanged, the item is appended to the
   * map's entities at the actor's position, and the action itself logs no
   * message. Nothing else in the world changes.
   */
  lemma DropReturnsItemToMap(s: WorldState, actor: EntityId, item: EntityId)
    requires Valid(s) && ActorReady(s, actor) && Carries(s, actor, item) && !Worn(s, actor, item)
    ensures
      var r := DropSpec(s, actor, item).state;
      && r.log == s.log
      && r.equipment[actor] == s.equipment[actor] - {item}
      && Ids(r.inventories[actor].items) == Ids(s.inventories[actor].items) - {item}
      && |r.inventories[actor].items| == |s.inventories[actor].items| - 1
      && r.inventories[actor] ==
           s.inventories[actor].(items := RemoveAt(s.inventories[actor].items, IndexOf(s.inventories[actor].items, item).value))
      && r.gameMap.entities == s.gameMap.entities + [CarriedItem(s, actor, item).(pos := ActorPos(s, actor))]
      && r == s.(gameMap := s.gameMap.(entities := r.gameMap.entities),
                 equipment := s.equipment[actor := r.equipment[actor]],
                 inventories := s.inventories[actor := r.inventories[actor]])
  {
    if item in s.equipment[actor] {
      UnequipKeepsItem(s, actor, item);
      DropFacts(ToggleEquip(s, actor, item), actor, item);
    } else {
      DropFacts(s, actor, item);
    }
  }

  /** An item that is not equipped is dropped directly: the drop is exactly `inventory.drop`. */
  lemma DropUnequipped(s: WorldState, actor: EntityId, item: EntityId)
    requires Valid(s) && ActorReady(s, actor) && Carries(s, actor, item) && item !in s.equipment[actor]
    ensures Admissible(s, Drop(actor, item, None)) && !Worn(s, actor, item)
    ensures Resolve(s, Drop(actor, item, None)) == Resolution(InventoryDrop(s, actor, item), Ok)
  {
    assert Resolve(s, Drop(actor, item, None)) == DropSpec(s, actor, item);
  }

  // ---------------------------------------------------------------------
  // EquipAction and WaitAction
  // ---------------------------------------------------------------------

  /** `EquipAction.perform`: toggles whether the item is equipped, and nothing else. */
  function EquipSpec(s: WorldState, actor: EntityId, item: EntityId): (r: Resolution)
    requires Valid(s) && ActorReady(s, actor) && Carries(s, actor, item)
    requires CarriedItem(s, actor, item).kind.equippable.Some?
    ensures Valid(r.state) && ActorReady(r.state, actor)
    ensures r.outcome == Ok
    ensures item in r.state.equipment[actor] <==> item !in s.equipment[actor]
    ensures r.state.equipment[actor] - {item} == s.equipment[actor] - {item}
    ensures r.state == s.(equipment := r.state.equipment)
    ensures forall a :: a in s.equipment && a != actor ==> a in r.state.equipment && r.state.equipment[a] == s.equipment[a]
  {
    Resolution(ToggleEquip(s, actor, item), Ok)
  }

  /** `WaitAction.perform`: always possible, changes nothing. */
  function WaitSpec(s: WorldState): (r: Resolution)
    ensures r.state == s && r.outcome == Ok
  {
    Resolution(s, Ok)
  }

  // ---------------------------------------------------------------------
  // TakeStairsAction
  // ---------------------------------------------------------------------

  /**
   * `TakeStairsAction.perform`: first the down-stairs check, then the
   * up-stairs check, the second made against the state the first left.
   */
  function TakeStairsSpec(s: WorldState, actor: EntityId, downward: bool): (r: Resolution)
    requires Valid(s) && ActorReady(s, actor)
    ensures Valid(r.state) && ActorReady(r.state, actor)
    ensures r.outcome.Impossible? ==> r.state == s
    ensures r.state == s.(currentFloor := r.state.currentFloor, deepestFloor := r.state.deepestFloor, log := r.state.log)
    ensures ActorPos(s, actor) == s.gameMap.downstairs && downward ==>
              && r.outcome == Ok
              && r.state.currentFloor == s.currentFloor + 1
              && r.state.deepestFloor == (if NextFloorExists(s) then s.deepestFloor else s.deepestFloor + 1)
              && r.state.log == s.log + [Descended]
    ensures ActorPos(s, actor) == s.gameMap.downstairs && !downward ==>
              r == Resolution(s, Impossible(CannotGoUp))
    ensures ActorPos(s, actor) != s.gameMap.downstairs && ActorPos(s, actor) == s.gameMap.upstairs && !downward ==>
              if s.currentFloor == 1 then r == Resolution(s, Impossible(MissionIncomplete))
              else r.outcome == Ok && r.state.currentFloor == s.currentFloor - 1 &&
                   r.state.deepestFloor == s.deepestFloor && r.state.log == s.log + [Ascended]
    ensures ActorPos(s, actor) != s.gameMap.downstairs && (ActorPos(s, actor) != s.gameMap.upstairs || downward) ==>
              r == Resolution(s, Ok)
  {
    var first :=
      if ActorPos(s, actor) == s.gameMap.downstairs then
        if downward then
          var arrived := if NextFloorExists(s) then DescendFloor(s) else GenerateFloor(s);
          Resolution(AddMessage(arrived, Descended), Ok)
        else
          Resolution(s, Impossible(CannotGoUp))
      else
        Resolution(s, Ok);
    if first.outcome.Impossible? then first
    else
      var t := first.state;
      assert t.gameMap == s.gameMap && t.inventories == s.inventories && t.equipment == s.equipment;
      assert ActorReady(t, actor) && ActorPos(t, actor) == ActorPos(s, actor);
      if ActorPos(t, actor) == t.gameMap.upstairs then
        if downward then
          first
        else if t.currentFloor == 1 then
          Resolution(t, Impossible(MissionIncomplete))
        else
          Resolution(AddMessage(AscendFloor(t), Ascended), Ok)
      else
        first
  }

  // ---------------------------------------------------------------------
  // ActionWithDirection, MeleeAction, MovementAction, BumpAction
  // ---------------------------------------------------------------------

  /** `ActionWithDirection.dest_xy`: the actor's position shifted by the offset. */
  function DestXY(s: WorldState, actor: EntityId, dx: int, dy: int): (p: Pos)
    requires Valid(s) && ActorReady(s, actor)
  {
    Pos(ActorPos(s, actor).x + dx, ActorPos(s, actor).y + dy)
  }

  /** `ActionWithDirection.blocking_entity`. */
  function BlockingEntity(s: WorldState, actor: EntityId, dx: int, dy: int): (b: Option<nat>)
    requires Valid(s) && ActorReady(s, actor)
    ensures b.Some? ==> b.value < |s.gameMap.entities| && s.gameMap.entities[b.value].blocks
    ensures b.Some? ==> s.gameMap.entities[b.value].pos == Pos(ActorPos(s, actor).x + dx, ActorPos(s, actor).y + dy)
    ensures b.None? <==> forall e :: e in s.gameMap.entities ==> !(e.blocks && e.pos == DestXY(s, actor, dx, dy))
  {
    FirstAtNone(s.gameMap.entities, Query.BlockingEntity, DestXY(s, actor, dx, dy));
    GetBlockingEntityAtLocation(s.gameMap, DestXY(s, actor, dx, dy))
  }

  /** `ActionWithDirection.target_actor`. */
  function TargetActor(s: WorldState, actor: EntityId, dx: int, dy: int): (t: Option<nat>)
    requires Valid(s) && ActorReady(s, actor)
    ensures t.Some? ==> t.value < |s.gameMap.entities| && s.gameMap.entities[t.value].IsActor()
    ensures t.Some? ==> s.gameMap.entities[t.value].pos == Pos(ActorPos(s, actor).x + dx, ActorPos(s, actor).y + dy)
    ensures t.None? <==> forall e :: e in s.gameMap.entities ==> !(e.IsActor() && e.pos == DestXY(s, actor, dx, dy))
  {
    FirstAtNone(s.gameMap.entities, Actor, DestXY(s, actor, dx, dy));
    GetActorAtLocation(s.gameMap, DestXY(s, actor, dx, dy))
  }

  /** The damage an attack does: `power - defense` when positive, otherwise none. */
  function Damage(power: int, defense: int): nat
  {
    if power - defense > 0 then power - defense else 0
  }

  /** The colour of the attack message depends on whether the player attacks. */
  function StyleOf(s: WorldState, actor: EntityId): AttackStyle
  {
    if actor == s.player then PlayerAtk else EnemyAtk
  }

  /** The fighter of the entity stored at `i`, which must be an actor. */
  function FighterAt(s: WorldState, i: nat): Fighter
    requires i < |s.gameMap.entities| && s.gameMap.entities[i].IsActor()
  {
    s.gameMap.entities[i].kind.fighter
  }

  /** The target stored at `t` after losing `damage` hit points. */
  function Hurt(s: WorldState, t: nat, damage: int): (r: WorldState)
    requires t < |s.gameMap.entities| && s.gameMap.entities[t].IsActor()
  {
    var fighter := FighterAt(s, t);
    var hurt := s.gameMap.entities[t].(kind := ActorKind(fighter.(hp := fighter.hp - damage)));
    s.(gameMap := s.gameMap.(entities := s.gameMap.entities[t := hurt]))
  }

  lemma HurtKeepsValid(s: WorldState, actor: EntityId, t: nat, damage: int)
    requires Valid(s) && ActorReady(s, actor)
    requires t < |s.gameMap.entities| && s.gameMap.entities[t].IsActor()
    ensures Valid(Hurt(s, t, damage)) && ActorReady(Hurt(s, t, damage), actor)
  {
    var r := Hurt(s, t, damage);
    ReplaceIds(s.gameMap.entities, t, r.gameMap.entities[t]);
    var i := ActorIndex(s, actor);
    assert r.gameMap.entities[i] in r.gameMap.entities;
  }

  /**
   * `MeleeAction.perform`: with no actor at the destination there is nothing
   * to attack; otherwise the target loses `power - defense` hit points when
   * that is positive, and one attack message is logged either way.
   */
  function MeleeSpec(s: WorldState, actor: EntityId, dx: int, dy: int): (r: Resolution)
    requires Valid(s) && ActorReady(s, actor)
    ensures Valid(r.state) && ActorReady(r.state, actor)
    ensures r.outcome.Impossible? ==> r == Resolution(s, Impossible(NothingToAttack))
    ensures r.outcome == Ok <==> TargetActor(s, actor, dx, dy).Some?
  {
    match TargetActor(s, actor, dx, dy)
    case None => Resolution(s, Impossible(NothingToAttack))
    case Some(t) =>
      var target := s.gameMap.entities[t];
      var damage := FighterAt(s, ActorIndex(s, actor)).power - FighterAt(s, t).defense;
      if damage > 0 then
        HurtKeepsValid(s, actor, t, damage);
        Resolution(AddMessage(Hurt(s, t, damage), Attacked(actor, target.id, damage, StyleOf(s, actor))), Ok)
      else
        Resolution(AddMessage(s, Attacked(actor, target.id, 0, StyleOf(s, actor))), Ok)
  }

  /**
   * A melee attack that finds a target changes only that target's hit
   * points, by exactly `max(power - defense, 0)`, never raising them, and
   * logs one message naming the damage and styled by who attacked; every
   * other entity, the attacker included when it is not its own target, is
   * unchanged.
   */
  lemma MeleeDamagesTarget(s: WorldState, actor: EntityId, dx: int, dy: int)
    requires Valid(s) && ActorReady(s, actor) && TargetActor(s, actor, dx, dy).Some?
    ensures
      var r := MeleeSpec(s, actor, dx, dy).state;
      var es := s.gameMap.entities;
      var t := TargetActor(s, actor, dx, dy).value;
      var attacker := ActorIndex(s, actor);
      var hit := Damage(FighterAt(s, attacker).power, FighterAt(s, t).defense);
      && r == s.(gameMap := s.gameMap.(entities := r.gameMap.entities), log := r.log)
      && |r.gameMap.entities| == |es|
      && (forall j :: 0 <= j < |es| && j != t ==> r.gameMap.entities[j] == es[j])
      && r.gameMap.entities[t].IsActor()
      && r.gameMap.entities[t] == es[t].(kind := r.gameMap.entities[t].kind)
      && FighterAt(r, t) == FighterAt(s, t).(hp := FighterAt(s, t).hp - hit)
      && FighterAt(r, t).hp <= FighterAt(s, t).hp
      && (t != attacker ==> r.gameMap.entities[attacker] == es[attacker])
      && r.log == s.log + [Attacked(actor, es[t].id, hit, StyleOf(s, actor))]
      && (r.log[|s.log|].style == PlayerAtk <==> actor == s.player)
  {
  }

  /** Nothing at `p` stops movement: in bounds, walkable, and no blocking entity. */
  predicate Passable(m: GameMap, p: Pos)
    requires WellFormed(m)
  {
    InBounds(m, p) && Walkable(m, p) && forall e :: e in m.entities ==> !(e.blocks && e.pos == p)
  }

  /**
   * `MovementAction.perform`: the bounds check, then (only when in bounds)
   * the tile check, then the blocking-entity check; any failure is "blocked"
   * and changes nothing, success moves the actor by exactly the offset.
   */
  function MovementSpec(s: WorldState, actor: EntityId, dx: int, dy: int): (r: Resolution)
    requires Valid(s) && ActorReady(s, actor)
    ensures Valid(r.state) && ActorReady(r.state, actor)
    ensures r.outcome.Impossible? ==> r == Resolution(s, Impossible(Blocked))
    ensures r.outcome == Ok <==> Passable(s.gameMap, DestXY(s, actor, dx, dy))
    ensures r.outcome.Ok? ==> r.state == MoveBy(s, ActorIndex(s, actor), dx, dy)
  {
    var dest := DestXY(s, actor, dx, dy);
    FirstAtNone(s.gameMap.entities, Query.BlockingEntity, dest);
    if !InBounds(s.gameMap, dest) then
      Resolution(s, Impossible(Blocked))
    else if !Walkable(s.gameMap, dest) then
      Resolution(s, Impossible(Blocked))
    else if GetBlockingEntityAtLocation(s.gameMap, dest).Some? then
      Resolution(s, Impossible(Blocked))
    else
      var i := ActorIndex(s, actor);
      var r := MoveBy(s, i, dx, dy);
      assert r.gameMap.entities[i] in r.gameMap.entities;
      assert ActorReady(r, actor);
      Resolution(r, Ok)
  }

  /**
   * A successful move puts the actor exactly `(dx, dy)` away from where it
   * stood, with its storage place, and every other entity, unchanged.
   */
  lemma MovementMovesActor(s: WorldState, actor: EntityId, dx: int, dy: int)
    requires Valid(s) && ActorReady(s, actor) && MovementSpec(s, actor, dx, dy).outcome.Ok?
    ensures
      var r := MovementSpec(s, actor, dx, dy).state;
      && ActorIndex(r, actor) == ActorIndex(s, actor)
      && ActorPos(r, actor) == Pos(ActorPos(s, actor).x + dx, ActorPos(s, actor).y + dy)
      && forall j :: 0 <= j < |s.gameMap.entities| && j != ActorIndex(s, actor) ==>
           r.gameMap.entities[j] == s.gameMap.entities[j]
  {
    var i := ActorIndex(s, actor);
    var r := MovementSpec(s, actor, dx, dy).state;
    assert DistinctIds(r.gameMap.entities) && r.gameMap.entities[i].id == actor;
  }

  /**
   * `BumpAction.perform`, as a choice of concrete action: melee when an
   * actor stands at the destination, movement otherwise.
   */
  function Dispatch(s: WorldState, actor: EntityId, dx: int, dy: int): (a: Action)
    requires Valid(s) && ActorReady(s, actor)
    ensures a.actor == actor && (a.Melee? || a.Movement?) && a.dx == dx && a.dy == dy
    ensures a.Melee? <==> TargetActor(s, actor, dx, dy).Some?
    ensures a.Melee? <==> exists e :: e in s.gameMap.entities && e.IsActor() && e.pos == DestXY(s, actor, dx, dy)
  {
    if TargetActor(s, actor, dx, dy).Some? then Melee(actor, dx, dy) else Movement(actor, dx, dy)
  }

  /**
   * Resolving one concrete action (anything but a bump) against the world.
   * Every action keeps the world valid and its actor in place on the map,
   * and an impossible action changes nothing at all.
   */
  function Step(s: WorldState, a: Action): (r: Resolution)
    requires Valid(s) && Admissible(s, a) && !a.Bump?
    ensures Valid(r.state) && ActorReady(r.state, a.actor)
    ensures r.outcome.Impossible? ==> r.state == s
  {
    match a
    case Pickup(actor) => PickupSpec(s, actor)
    case UseItem(actor, item, target) => UseItemSpec(s, actor, item, target)
    case Drop(actor, item, _) => DropSpec(s, actor, item)
    case Equip(actor, item) => EquipSpec(s, actor, item)
    case Wait(_) => WaitSpec(s)
    case TakeStairs(actor, downward) => TakeStairsSpec(s, actor, downward)
    case Melee(actor, dx, dy) => MeleeSpec(s, actor, dx, dy)
    case Movement(actor, dx, dy) => MovementSpec(s, actor, dx, dy)
  }

  /** Resolving any action: a bump resolves as the concrete action it dispatches to. */
  function Resolve(s: WorldState, a: Action): (r: Resolution)
    requires Valid(s) && Admissible(s, a)
    ensures Valid(r.state) && ActorReady(r.state, a.actor)
    ensures r.outcome.Impossible? ==> r.state == s
  {
    if a.Bump? then Step(s, Dispatch(s, a.actor, a.dx, a.dy)) else Step(s, a)
  }
}
