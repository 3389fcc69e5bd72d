/**
 * The engine as mutable state, and each action's `perform` as a method that
 * updates it in place. Every method is proved to leave exactly the state,
 * and report exactly the outcome, that the matching function of `Actions`
 * gives; an `Impossible` outcome stands for the raised exception.
 */
module Engine {
  import opened Wrappers
  import opened Entities
  import opened GameMaps
  import opened WorldStates
  import opened Actions
  import opened ActionProperties

  class World {
    var gameMap: GameMap
    var inventories: map<EntityId, Inventory>
    var equipment: map<EntityId, set<EntityId>>
    var currentFloor: int
    var deepestFloor: int
    var log: seq<Message>
    var activations: seq<Activation>
    const player: EntityId

    /** The fields of the engine, read as one world state. */
    function State(): WorldState
      reads this
    {
      WorldState(gameMap, inventories, equipment, currentFloor, deepestFloor, log, activations, player)
    }

    constructor (s: WorldState)
      requires Valid(s)
      ensures State() == s
    {
      gameMap := s.gameMap;
      inventories := s.inventories;
      equipment := s.equipment;
      currentFloor := s.currentFloor;
      deepestFloor := s.deepestFloor;
      log := s.log;
      activations := s.activations;
      player := s.player;
    }

    // -------------------------------------------------------------------
    // Collaborators
    // -------------------------------------------------------------------

    /** `message_log.add_message(...)`. */
    method AddMessage(m: Message)
      modifies this
      ensures State() == WorldStates.AddMessage(old(State()), m)
    {
      log := log + [m];
    }

    /** `equipment.toggle_equip(item)`. */
    method ToggleEquip(actor: EntityId, item: EntityId)
      requires actor in equipment
      modifies this
      ensures State() == WorldStates.ToggleEquip(old(State()), actor, item)
    {
      var equipped := equipment[actor];
      if item in equipped {
        equipment := equipment[actor := equipped - {item}];
      } else {
        equipment := equipment[actor := equipped + {item}];
      }
    }

    /** `inventory.drop(item)`: the item leaves the inventory and is placed where its owner stands. */
    method InventoryDrop(actor: EntityId, item: EntityId)
      requires Valid(State()) && ActorReady(State(), actor) && Carries(State(), actor, item)
      modifies this
      ensures State() == WorldStates.InventoryDrop(old(State()), actor, item)
    {
      var inventory := inventories[actor];
      var k := IndexOf(inventory.items, item).value;
      var placed := inventory.items[k].(pos := ActorPos(State(), actor));
      gameMap := gameMap.(entities := gameMap.entities + [placed]);
      inventories := inventories[actor := inventory.(items := RemoveAt(inventory.items, k))];
    }

    /** `entity.move(dx, dy)` on the entity stored at `i`. */
    method MoveEntity(i: nat, dx: int, dy: int)
      requires i < |gameMap.entities|
      modifies this
      ensures State() == MoveBy(old(State()), i, dx, dy)
    {
      var e := gameMap.entities[i];
      gameMap := gameMap.(entities := gameMap.entities[i := e.(pos := Pos(e.pos.x + dx, e.pos.y + dy))]);
    }

    /** `consumable.activate(action)`. */
    method Activate(user: EntityId, item: EntityId, target: Pos)
      modifies this
      ensures State() == ActivateConsumable(old(State()), user, item, target)
    {
      activations := activations + [Activation(user, item, target)];
    }

    // -------------------------------------------------------------------
    // The actions
    // -------------------------------------------------------------------

    /**
     * The scan of `game_map.items` in `PickupAction.perform`: the first
     * entity, in storage order, that is an item lying at `here`.
     */
    method FirstItemAt(here: Pos) returns (k: Option<nat>)
      ensures k == FirstAt(gameMap.entities, GroundItem, here)
    {
      var i := 0;
      while i < |gameMap.entities|
        invariant i <= |gameMap.entities|
        invariant forall j :: 0 <= j < i ==> !Matches(gameMap.entities[j], GroundItem, here)
      {
        var item := gameMap.entities[i];
        if item.IsItem() && item.pos == here {
          return Some(i);
        }
        i := i + 1;
      }
      return None;
    }

    /**
     * `PickupAction.perform`: the first item where the actor stands moves
     * from the map to the end of the inventory, unless the inventory is full.
     */
    method Pickup(actor: EntityId) returns (o: Outcome)
      requires Valid(State()) && ActorReady(State(), actor)
      modifies this
      ensures Resolution(State(), o) == PickupSpec(old(State()), actor)
    {
      ghost var s := State();
      var here := ActorPos(State(), actor);
      var inventory := inventories[actor];
      var found := FirstItemAt(here);
      if found.None? {
        return Impossible(NothingToPickUp);
      }
      var k := found.value;
      if |inventory.items| >= inventory.capacity {
        return Impossible(InventoryFull);
      }
      var item := gameMap.entities[k];
      gameMap := gameMap.(entities := RemoveAt(gameMap.entities, k));
      inventories := inventories[actor := inventory.(items := inventory.items + [item])];
      log := log + [PickedUp(item.id)];
      assert State() == s.(gameMap := gameMap, inventories := inventories, log := log);
      PickupTakesFirstItem(s, actor, k);
      return Ok;
    }

    /** `ItemAction.perform`: activate the item's consumable, if it has one. */
    method UseItem(actor: EntityId, item: EntityId, target: Option<Pos>) returns (o: Outcome)
      requires Valid(State()) && ActorReady(State(), actor) && Carries(State(), actor, item)
      modifies this
      ensures Resolution(State(), o) == UseItemSpec(old(State()), actor, item, target)
    {
      if CarriedItem(State(), actor, item).kind.consumable {
        Activate(actor, item, TargetXY(State(), actor, target));
      }
      return Ok;
    }

    /** `DropAction.perform`. */
    method Drop(actor: EntityId, item: EntityId) returns (o: Outcome)
      requires Valid(State()) && ActorReady(State(), actor) && Carries(State(), actor, item)
      modifies this
      ensures Resolution(State(), o) == DropSpec(old(State()), actor, item)
    {
      if item in equipment[actor] {
        if CarriedItem(State(), actor, item).kind.equippable == Some(Armor) {
          AddMessage(CannotDropWorn);
        } else {
          UnequipKeepsItem(State(), actor, item);
          ToggleEquip(actor, item);
          InventoryDrop(actor, item);
        }
      } else {
        InventoryDrop(actor, item);
      }
      return Ok;
    }

    /** `EquipAction.perform`. */
    method Equip(actor: EntityId, item: EntityId) returns (o: Outcome)
      requires Valid(State()) && ActorReady(State(), actor) && Carries(State(), actor, item)
      requires CarriedItem(State(), actor, item).kind.equippable.Some?
      modifies this
      ensures Resolution(State(), o) == EquipSpec(old(State()), actor, item)
    {
      ToggleEquip(actor, item);
      return Ok;
    }

    /** `WaitAction.perform`. */
    method Wait() returns (o: Outcome)
      ensures Resolution(State(), o) == WaitSpec(State())
    {
      return Ok;
    }

    /** `TakeStairsAction.perform`: the down-stairs check, then the up-stairs check. */
    method TakeStairs(actor: EntityId, downward: bool) returns (o: Outcome)
      requires Valid(State()) && ActorReady(State(), actor)
      modifies this
      ensures Resolution(State(), o) == TakeStairsSpec(old(State()), actor, downward)
    {
      if ActorPos(State(), actor) == gameMap.downstairs {
        if downward {
          if currentFloor < deepestFloor {
            currentFloor := currentFloor + 1;
          } else {
            deepestFloor := deepestFloor + 1;
            currentFloor := deepestFloor;
          }
          AddMessage(Descended);
        } else {
          return Impossible(CannotGoUp);
        }
      }
      if ActorPos(State(), actor) == gameMap.upstairs {
        if !downward {
          if currentFloor == 1 {
            return Impossible(MissionIncomplete);
          }
          currentFloor := currentFloor - 1;
          AddMessage(Ascended);
        }
      }
      return Ok;
    }

    /** `MeleeAction.perform`. */
    method Melee(actor: EntityId, dx: int, dy: int) returns (o: Outcome)
      requires Valid(State()) && ActorReady(State(), actor)
      modifies this
      ensures Resolution(State(), o) == MeleeSpec(old(State()), actor, dx, dy)
    {
      var found := TargetActor(State(), actor, dx, dy);
      if found.None? {
        return Impossible(NothingToAttack);
      }
      ghost var s := State();
      var t := found.value;
      var target := gameMap.entities[t];
      var damage := FighterAt(State(), ActorIndex(State(), actor)).power - target.kind.fighter.defense;
      var style := if actor == player then PlayerAtk else EnemyAtk;
      if damage > 0 {
        AddMessage(Attacked(actor, target.id, damage, style));
        var fighter := target.kind.fighter;
        gameMap := gameMap.(entities := gameMap.entities[t := target.(kind := ActorKind(fighter.(hp := fighter.hp - damage)))]);
        assert State() == WorldStates.AddMessage(Hurt(s, t, damage), Attacked(actor, target.id, damage, style));
      } else {
        AddMessage(Attacked(actor, target.id, 0, style));
      }
      return Ok;
    }

    /** `MovementAction.perform`: bounds, then tile, then blocking entity. */
    method Movement(actor: EntityId, dx: int, dy: int) returns (o: Outcome)
      requires Valid(State()) && ActorReady(State(), actor)
      modifies this
      ensures Resolution(State(), o) == MovementSpec(old(State()), actor, dx, dy)
    {
      var dest := DestXY(State(), actor, dx, dy);
      if !InBounds(gameMap, dest) {
        return Impossible(Blocked);
      }
      if !Walkable(gameMap, dest) {
        return Impossible(Blocked);
      }
      if GetBlockingEntityAtLocation(gameMap, dest).Some? {
        return Impossible(Blocked);
      }
      MoveEntity(ActorIndex(State(), actor), dx, dy);
      return Ok;
    }

    /** `BumpAction.perform`: attack an actor at the destination, otherwise move. */
    method Bump(actor: EntityId, dx: int, dy: int) returns (o: Outcome)
      requires Valid(State()) && ActorReady(State(), actor)
      modifies this
      ensures Resolution(State(), o) == Resolve(old(State()), Action.Bump(actor, dx, dy))
    {
      BumpResolvesAsMeleeOrMovement(State(), actor, dx, dy);
      if TargetActor(State(), actor, dx, dy).Some? {
        o := Melee(actor, dx, dy);
      } else {
        o := Movement(actor, dx, dy);
      }
    }

    /** Perform any action. */
    method Perform(a: Action) returns (o: Outcome)
      requires Valid(State()) && Admissible(State(), a)
      modifies this
      ensures Resolution(State(), o) == Resolve(old(State()), a)
    {
      match a
      case Pickup(actor) => o := Pickup(actor);
      case UseItem(actor, item, target) => o := UseItem(actor, item, target);
      case Drop(actor, item, _) => o := Drop(actor, item);
      case Equip(actor, item) => o := Equip(actor, item);
      case Wait(_) => o := Wait();
      case TakeStairs(actor, downward) => o := TakeStairs(actor, downward);
      case Melee(actor, dx, dy) => o := Melee(actor, dx, dy);
      case Movement(actor, dx, dy) => o := Movement(actor, dx, dy);
      case Bump(actor, dx, dy) => o := Bump(actor, dx, dy);
    }
  }
}
