/**
 * The slice of the engine that actions read and write, as one value: the
 * current game map, every actor's inventory and equipment, the floor
 * counters of the game world, the message log, and the trace of consumable
 * activations. `Valid` is the invariant every action keeps; the collaborator
 * functions at the end stand for calls into code that is not part of this
 * model, each with the minimal effect the actions rely on.
 */
module WorldStates {
  import opened Wrappers
  import opened Entities
  import opened GameMaps

  /** An inventory component: the carried items in order, and how many fit. */
  datatype Inventory = Inventory(items: seq<Entity>, capacity: nat)

  /** Why an action is impossible; each stands for one `Impossible(...)` text. */
  datatype Reason =
    | InventoryFull
    | NothingToPickUp
    | CannotGoUp
    | MissionIncomplete
    | NothingToAttack
    | Blocked

  /** What resolving an action yields: success, or `exceptions.Impossible(reason)`. */
  datatype Outcome = Ok | Impossible(reason: Reason)

  /** The colour an attack message gets: `color.player_atk` or `color.enemy_atk`. */
  datatype AttackStyle = PlayerAtk | EnemyAtk

  /**
   * A message-log entry, as an opaque event. `Attacked` records the damage
   * named in the text; 0 stands for the "does no damage" wording.
   */
  datatype Message =
    | PickedUp(item: EntityId)
    | CannotDropWorn
    | Descended
    | Ascended
    | Attacked(attacker: EntityId, target: EntityId, damage: nat, style: AttackStyle)

  /** One call of `consumable.activate`: who used which item, aimed where. */
  datatype Activation = Activation(user: EntityId, item: EntityId, target: Pos)

  datatype WorldState = WorldState(
    gameMap: GameMap,
    inventories: map<EntityId, Inventory>,
    equipment: map<EntityId, set<EntityId>>,
    currentFloor: int,
    deepestFloor: int,
    log: seq<Message>,
    activations: seq<Activation>,
    player: EntityId)

  /** The state after an action and how it ended. */
  datatype Resolution = Resolution(state: WorldState, outcome: Outcome)

  predicate InventoryValid(inv: Inventory)
  {
    |inv.items| <= inv.capacity && DistinctIds(inv.items) &&
    forall e :: e in inv.items ==> e.IsItem()
  }

  /** Only carried items that can be equipped are equipped. */
  predicate EquipmentValid(equipped: set<EntityId>, inv: Inventory)
  {
    equipped <= Ids(inv.items) &&
    forall e :: e in inv.items && e.id in equipped ==> e.IsItem() && e.kind.equippable.Some?
  }

  /**
   * The world invariant: the map is rectangular, no entity is in two places
   * (on the map, or in two inventories), no inventory is over capacity,
   * every actor with an inventory has equipment, and the floor counters are
   * in range.
   */
  predicate Valid(s: WorldState)
  {
    Consistent(s.gameMap, s.inventories, s.equipment) && 1 <= s.currentFloor <= s.deepestFloor
  }

  /** The part of the invariant about where entities are kept. */
  predicate Consistent(m: GameMap, inventories: map<EntityId, Inventory>, equipment: map<EntityId, set<EntityId>>)
  {
    && WellFormed(m)
    && DistinctIds(m.entities)
    && equipment.Keys == inventories.Keys
    && (forall a :: a in inventories ==>
          InventoryValid(inventories[a]) && Ids(inventories[a].items) !! Ids(m.entities))
    && (forall a, b :: a in inventories && b in inventories && a != b ==>
          Ids(inventories[a].items) !! Ids(inventories[b].items))
    && (forall a :: a in equipment ==> EquipmentValid(equipment[a], inventories[a]))
  }

  /** The actor is on the map and has its inventory and equipment components. */
  predicate ActorReady(s: WorldState, actor: EntityId)
  {
    actor in s.inventories && actor in s.equipment && OnMap(s.gameMap.entities, actor)
  }

  /** Some actor stored on the map has the id. */
  predicate OnMap(es: seq<Entity>, actor: EntityId)
  {
    exists e :: e in es && e.id == actor && e.IsActor()
  }

  /** Where the actor is stored among the map's entities. */
  function ActorIndex(s: WorldState, actor: EntityId): (i: nat)
    requires DistinctIds(s.gameMap.entities) && ActorReady(s, actor)
    ensures i < |s.gameMap.entities|
    ensures s.gameMap.entities[i].id == actor && s.gameMap.entities[i].IsActor()
  {
    var e :| e in s.gameMap.entities && e.id == actor && e.IsActor();
    var j :| 0 <= j < |s.gameMap.entities| && s.gameMap.entities[j] == e;
    IndexOf(s.gameMap.entities, actor).value
  }

  /** `(entity.x, entity.y)`. */
  function ActorPos(s: WorldState, actor: EntityId): Pos
    requires DistinctIds(s.gameMap.entities) && ActorReady(s, actor)
  {
    s.gameMap.entities[ActorIndex(s, actor)].pos
  }

  /** The item is in the actor's inventory. */
  predicate Carries(s: WorldState, actor: EntityId, item: EntityId)
  {
    actor in s.inventories && item in Ids(s.inventories[actor].items)
  }

  function CarriedItem(s: WorldState, actor: EntityId, item: EntityId): (e: Entity)
    requires Valid(s) && Carries(s, actor, item)
    ensures e in s.inventories[actor].items && e.id == item && e.IsItem()
  {
    var e :| e in s.inventories[actor].items && e.id == item;
    e
  }

  // ---------------------------------------------------------------------
  // Collaborators. Each stands for code outside the action layer.
  // ---------------------------------------------------------------------

  /** `entity.move(dx, dy)` on the entity stored at index `i`. */
  function MoveBy(s: WorldState, i: nat, dx: int, dy: int): (r: WorldState)
    requires i < |s.gameMap.entities|
    ensures |r.gameMap.entities| == |s.gameMap.entities|
    ensures r.gameMap.entities[i].pos == Pos(s.gameMap.entities[i].pos.x + dx, s.gameMap.entities[i].pos.y + dy)
    ensures Valid(s) ==> Valid(r)
  {
    var e := s.gameMap.entities[i];
    var moved := e.(pos := Pos(e.pos.x + dx, e.pos.y + dy));
    ReplaceIds(s.gameMap.entities, i, moved);
    s.(gameMap := s.gameMap.(entities := s.gameMap.entities[i := moved]))
  }

  /**
   * `equipment.toggle_equip(item)`: an equipped item becomes unequipped and
   * an unequipped one equipped; nothing else changes.
   */
  function ToggleEquip(s: WorldState, actor: EntityId, item: EntityId): (r: WorldState)
    requires actor in s.equipment
    ensures r.equipment.Keys == s.equipment.Keys
    ensures item in r.equipment[actor] <==> item !in s.equipment[actor]
    ensures r.equipment[actor] - {item} == s.equipment[actor] - {item}
    ensures Valid(s) && Carries(s, actor, item) && CarriedItem(s, actor, item).kind.equippable.Some? ==> Valid(r)
  {
    var equipped := s.equipment[actor];
    var toggled := if item in equipped then equipped - {item} else equipped + {item};
    s.(equipment := s.equipment[actor := toggled])
  }

  /** The map's entities and one actor's inventory replaced; everything else as it was. */
  function Transfer(s: WorldState, actor: EntityId, entities: seq<Entity>, inv: Inventory): WorldState
  {
    s.(gameMap := s.gameMap.(entities := entities), inventories := s.inventories[actor := inv])
  }

  /**
   * Moving items between the map and one actor's inventory keeps the world
   * valid, provided no entity appears that was not there before, none is
   * in both places, the inventory stays within capacity and the actor's
   * equipment still refers to carried items.
   */
  lemma TransferKeepsValid(s: WorldState, actor: EntityId, entities: seq<Entity>, inv: Inventory)
    requires Valid(s) && actor in s.inventories
    requires DistinctIds(entities) && InventoryValid(inv) && Ids(inv.items) !! Ids(entities)
    requires Ids(inv.items) + Ids(entities) <= Ids(s.inventories[actor].items) + Ids(s.gameMap.entities)
    requires EquipmentValid(s.equipment[actor], inv)
    ensures Valid(Transfer(s, actor, entities, inv))
  {
    var r := Transfer(s, actor, entities, inv);
    forall a | a in r.inventories
      ensures InventoryValid(r.inventories[a]) && Ids(r.inventories[a].items) !! Ids(r.gameMap.entities)
    {
      if a != actor {
        assert Ids(s.inventories[a].items) !! Ids(s.inventories[actor].items);
      }
    }
    forall a, b | a in r.inventories && b in r.inventories && a != b
      ensures Ids(r.inventories[a].items) !! Ids(r.inventories[b].items)
    {
      if a == actor {
        assert Ids(s.inventories[b].items) !! Ids(s.inventories[actor].items);
      } else if b == actor {
        assert Ids(s.inventories[a].items) !! Ids(s.inventories[actor].items);
      } else {
        assert Ids(s.inventories[a].items) !! Ids(s.inventories[b].items);
      }
    }
    forall a | a in r.equipment ensures EquipmentValid(r.equipment[a], r.inventories[a]) {
      if a != actor {
        assert EquipmentValid(s.equipment[a], s.inventories[a]);
      }
    }
  }

  /**
   * `inventory.drop(item)`: the item leaves the inventory (the others keep
   * their order) and is placed on the map, at the end of the entity
   * collection, where its owner stands.
   */
  function InventoryDrop(s: WorldState, actor: EntityId, item: EntityId): (r: WorldState)
    requires Valid(s) && ActorReady(s, actor) && Carries(s, actor, item)
    ensures r.gameMap.entities == s.gameMap.entities + [CarriedItem(s, actor, item).(pos := ActorPos(s, actor))]
    ensures r.inventories.Keys == s.inventories.Keys
    ensures |r.inventories[actor].items| == |s.inventories[actor].items| - 1
    ensures Ids(r.inventories[actor].items) == Ids(s.inventories[actor].items) - {item}
    ensures r.inventories[actor] ==
              s.inventories[actor].(items := RemoveAt(s.inventories[actor].items, IndexOf(s.inventories[actor].items, item).value))
    ensures item !in s.equipment[actor] ==> Valid(r)
    ensures r == s.(gameMap := s.gameMap.(entities := r.gameMap.entities),
                    inventories := s.inventories[actor := r.inventories[actor]])
  {
    var inv := s.inventories[actor];
    var k := IndexOf(inv.items, item).value;
    var placed := inv.items[k].(pos := ActorPos(s, actor));
    assert placed == CarriedItem(s, actor, item).(pos := ActorPos(s, actor));
    var kept := inv.(items := RemoveAt(inv.items, k));
    DropKeepsValid(s, actor, k);
    Transfer(s, actor, s.gameMap.entities + [placed], kept)
  }

  lemma DropKeepsValid(s: WorldState, actor: EntityId, k: nat)
    requires Valid(s) && ActorReady(s, actor) && k < |s.inventories[actor].items|
    ensures
      var inv := s.inventories[actor];
      var r := Transfer(s, actor, s.gameMap.entities + [inv.items[k].(pos := ActorPos(s, actor))],
                        inv.(items := RemoveAt(inv.items, k)));
      && Ids(r.inventories[actor].items) == Ids(inv.items) - {inv.items[k].id}
      && (inv.items[k].id !in s.equipment[actor] ==> Valid(r))
  {
    var inv := s.inventories[actor];
    var placed := inv.items[k].(pos := ActorPos(s, actor));
    RemoveAtIds(inv.items, k);
    if placed.id !in s.equipment[actor] {
      assert inv.items[k] in inv.items;
      AppendIds(s.gameMap.entities, placed);
      TransferKeepsValid(s, actor, s.gameMap.entities + [placed], inv.(items := RemoveAt(inv.items, k)));
    }
  }

  /** `game_world.next_floor_exists()`: floors down to `deepestFloor` have been generated. */
  predicate NextFloorExists(s: WorldState)
  {
    s.currentFloor < s.deepestFloor
  }

  /** `game_world.descend_floor()`: go down to the already generated next floor. */
  function DescendFloor(s: WorldState): (r: WorldState)
    requires NextFloorExists(s)
    ensures r.currentFloor == s.currentFloor + 1 && r.deepestFloor == s.deepestFloor
    ensures Valid(s) ==> Valid(r)
  {
    s.(currentFloor := s.currentFloor + 1)
  }

  /** `game_world.generate_floor()`: a new deepest floor is made and entered. */
  function GenerateFloor(s: WorldState): (r: WorldState)
    ensures r.deepestFloor == s.deepestFloor + 1 && r.currentFloor == r.deepestFloor
    ensures Valid(s) ==> Valid(r)
  {
    s.(currentFloor := s.deepestFloor + 1, deepestFloor := s.deepestFloor + 1)
  }

  /** `game_world.ascend_floor()`: go up one floor; the floor left stays generated. */
  function AscendFloor(s: WorldState): (r: WorldState)
    ensures r.currentFloor == s.currentFloor - 1 && r.deepestFloor == s.deepestFloor
    ensures Valid(s) && s.currentFloor > 1 ==> Valid(r) && NextFloorExists(r)
  {
    s.(currentFloor := s.currentFloor - 1)
  }

  /** `consumable.activate(action)`: only the call itself is recorded. */
  function ActivateConsumable(s: WorldState, user: EntityId, item: EntityId, target: Pos): (r: WorldState)
    ensures r.activations == s.activations + [Activation(user, item, target)]
    ensures Valid(s) ==> Valid(r)
  {
    s.(activations := s.activations + [Activation(user, item, target)])
  }

  /** `message_log.add_message(...)`. */
  function AddMessage(s: WorldState, m: Message): WorldState
  {
    s.(log := s.log + [m])
  }
}
