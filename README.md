# Action resolution of a turn-based roguelike, in Dafny

This project models the action layer of a tile-based roguelike. Each action
turns one intent into changes to the game world, or refuses with an
"impossible" outcome that leaves the world exactly as it was. The intents are:

- pick up an item;
- use an item;
- drop an item;
- equip or unequip an item;
- wait;
- take the stairs;
- attack in a direction (melee);
- move in a direction;
- bump in a direction, which attacks an actor there and otherwise moves.

The layer works on these parts of the world:

- the current game map: its size, which tiles are walkable, the entities in storage order, and the two stair tiles;
- each actor's inventory (ordered, with a capacity) and the set of items it has equipped;
- the floor counters of the game world;
- the message log;
- a trace of consumable activations.

The layout is:

- `wrappers.dfy`: `Option`.
- `entities.dfy`: entities (actors with fighter stats, items with consumable and equippable capabilities), ids, and removal of an entity at an index.
- `game_map.dfy`: bounds, walkability and the "first entity at a location" lookups.
- `world_state.dfy`: the world as one value and the invariant `Valid`. It also holds the stand-ins for the collaborators outside the action layer (toggle equip, inventory drop, entity move, the floor operations, consumable activation, the message log).
- `actions.dfy`: one function per `perform`, giving the end state and the outcome. `Resolve` dispatches on the `Action` datatype.
- `properties.dfy`: lemmas that relate several resolutions.
- `engine.dfy`: class `World`, whose fields are the engine's mutable state. Its methods perform each action in place, the pickup with its scanning loop and early return. Each method is proved to give exactly the state and outcome of the matching function.

An `Impossible(reason)` outcome stands for the raised `exceptions.Impossible`. The acting entity is bound by its id. The world is passed explicitly rather than reached through `entity.gamemap.engine`.

## Model

| member | source | states |
|---|---|---|
| Entities.RemoveAt | actions.py:50 | removing the stored entry keeps the others in order; the result plus the removed entity is the original multiset |
| GameMaps.FirstAt | actions.py:45-46 | the index found matches the query at the position, no earlier entry matches, and "none" exactly when no entry matches |
| WorldStates.ToggleEquip | actions.py:87 | the item's equipped status flips; every other equipped item stays; the invariant holds when the item is carried and equippable |
| WorldStates.InventoryDrop | actions.py:88 | the item is appended to the map at the owner's position and leaves the inventory; the other carried items keep their order and the capacity is unchanged; only the map and that inventory change |
| WorldStates.MoveBy | actions.py:206 | the moved entity's position shifts by exactly (dx, dy); the invariant is kept |
| WorldStates.DescendFloor | actions.py:117-118 | the current floor goes one deeper when the next floor exists; the deepest floor is unchanged |
| WorldStates.GenerateFloor | actions.py:119-120 | a new deepest floor is made and becomes the current one |
| WorldStates.AscendFloor | actions.py:138 | the current floor goes up one; the floor left stays generated |
| WorldStates.ActivateConsumable | actions.py:77 | one activation, naming user, item and target, is recorded |
| Actions.PickupSpec | actions.py:40-57 | with no item at the actor's tile: nothing to pick up. With one there and a full inventory: inventory full. Otherwise it succeeds. Both refusals change nothing; the invariant is kept |
| Actions.PickupTransfersItem | actions.py:45-55 | a successful pickup appends one item from the actor's tile to the inventory (length + 1, old items kept) and removes it from the map; it logs one pickup message and changes nothing else |
| Actions.PickupTakesFirstItem | actions.py:45-52 | when the first item in storage order at the actor's tile is found: a full inventory refuses the pickup, otherwise that item is taken and the map keeps the rest in order |
| Actions.ItemTargetActor | actions.py:69-72 | the actor found stands on the target tile, and none is found exactly when no actor stands there; with the target omitted some actor is always found, since the user stands on its own tile |
| Actions.UseItemSpec | actions.py:65-77 | an item with a consumable is activated once, aimed at the given target or at the actor's own tile when omitted; an item without one changes nothing; nothing but the activation trace changes |
| Actions.DropSpec | actions.py:80-90 | worn armour is refused with only a message logged; anything else leaves the inventory and the equipment; the invariant is kept |
| Actions.DropUnequipped | actions.py:89-90 | an item that is not equipped is dropped directly: the drop is exactly the inventory's drop, and it succeeds |
| Actions.DropReturnsItemToMap | actions.py:86-90 | dropping anything but worn armour unequips it and removes it from the inventory, whose other items keep their order and whose capacity is unchanged; it is appended to the map at the actor's tile, with no message from the action itself; nothing else in the world changes |
| Actions.EquipSpec | actions.py:99-100 | only the item's equipped status flips; nothing else in the world changes |
| Actions.WaitSpec | actions.py:102-104 | the world is unchanged and the action succeeds |
| Actions.TakeStairsSpec | actions.py:111-141 | the full matrix. On the down stairs going down: descend or generate a floor, and log. On the down stairs going up: cannot go up. On the up stairs going up: mission incomplete at floor 1, otherwise ascend and log. Every other case does nothing. Refusals change nothing |
| Actions.BlockingEntity | actions.py:150-158 | the entity found blocks and stands at (x + dx, y + dy), and none is found exactly when no blocking entity stands at that destination |
| Actions.TargetActor | actions.py:150-163 | the entity found is an actor at (x + dx, y + dy), and none is found exactly when no actor stands at that destination |
| GameMaps.FirstAtNone | actions.py:202 | a lookup finds nothing exactly when no entity on the map answers it at that position |
| Actions.MeleeSpec | actions.py:169-172 | it succeeds exactly when an actor stands at the destination; otherwise nothing to attack, with nothing changed |
| Actions.MeleeDamagesTarget | actions.py:174-189 | the target loses exactly max(power - defense, 0) hit points, never gaining any; all other entities are unchanged, the attacker included when it is not its own target; one message is logged, styled by whether the player attacked |
| Actions.MovementSpec | actions.py:193-206 | it succeeds exactly when the destination is in bounds, walkable and free of blocking entities, and then the actor is moved by the offset; otherwise blocked, with nothing changed; the invariant is kept |
| Actions.MovementMovesActor | actions.py:206 | after a successful move the actor stands exactly (dx, dy) from where it stood, in the same storage place; every other entity is unchanged |
| Actions.Dispatch | actions.py:208-213 | the bump becomes a melee or a movement with the same actor and offset, and it is a melee exactly when an actor stands at the destination |
| Actions.Step | actions.py:23-32 | every concrete action keeps the invariant and its actor on the map; an impossible action changes nothing |
| Actions.Resolve | actions.py:208-213 | any action, a bump included, keeps the invariant and its actor on the map; an impossible action changes nothing |
| ActionProperties.BumpResolvesAsMeleeOrMovement | actions.py:208-213 | with an actor at the destination, a bump has the same end state and outcome as the melee action; otherwise the same as the movement action |
| ActionProperties.WaitChangesNothing | actions.py:102-104 | waiting any number of turns leaves the world unchanged |
| ActionProperties.EquipTwiceRestores | actions.py:99-100 | equipping the same item twice restores the world |
| ActionProperties.PickupThenDropRestores | actions.py:45-90 | dropping the item just picked up restores the inventories and the equipment, and the map holds the same entities |
| ActionProperties.MoveThenBackRestores | actions.py:192-206 | moving back by the opposite offset restores the world when the tile left behind is passable |
| ActionProperties.StandingStillIsBlocked | actions.py:202-204 | a blocking actor moving by (0, 0) is blocked by itself |
| Engine.World.AddMessage | actions.py:54 | one entry is appended to the log |
| Engine.World.ToggleEquip | actions.py:100 | the fields become the toggled world state |
| Engine.World.InventoryDrop | actions.py:90 | the fields become the world state after the drop |
| Engine.World.MoveEntity | actions.py:206 | the fields become the world state after the move |
| Engine.World.Activate | actions.py:77 | the fields become the world state after the activation |
| Engine.World.FirstItemAt | actions.py:45-46 | the scanning loop with early return finds exactly the first item, in storage order, at the position |
| Engine.World.Pickup | actions.py:40-57 | leaves exactly the state and outcome of `PickupSpec` |
| Engine.World.UseItem | actions.py:74-77 | the state and outcome of `UseItemSpec` |
| Engine.World.Drop | actions.py:80-90 | the state and outcome of `DropSpec` |
| Engine.World.Equip | actions.py:99-100 | the state and outcome of `EquipSpec` |
| Engine.World.Wait | actions.py:103-104 | nothing changes and the action succeeds |
| Engine.World.TakeStairs | actions.py:111-141 | the two sequential checks leave the state and outcome of `TakeStairsSpec` |
| Engine.World.Melee | actions.py:169-189 | the state and outcome of `MeleeSpec` |
| Engine.World.Movement | actions.py:193-206 | the state and outcome of `MovementSpec` |
| Engine.World.Bump | actions.py:209-213 | the state and outcome of resolving the bump |
| Engine.World.Perform | actions.py:23-32 | any admissible action leaves the state and outcome of `Resolve` |

## Left out

- Exact message texts, their formatting and colours are not modelled. Log entries are opaque events; only the attack style (player attack or enemy attack) and the damage dealt are kept.
- Floor generation and the map swap are not modelled. `descend_floor`, `generate_floor` and `ascend_floor` only update a current-floor and a deepest-floor counter, and "next floor exists" means the current floor is above the deepest. The new map and the player's placement on it are not modelled. So the up-stairs check after a descent sees the same map. When going down this changes nothing, because that branch does nothing.
- Equipment is modelled as a set of equipped item ids, and toggling flips membership. Slot replacement inside `toggle_equip` (equipping a second weapon unequips the first) is not modelled.
- Hit points are modelled as `hp -= damage` literally. Any clamping or death handling in the fighter's `hp` setter is in code that is not part of this model.
- `get_actor_at_location` is modelled as the first actor at the position; any aliveness filter it applies is not modelled.
- The internals of `consumable.activate` are not modelled; only the call and its target are recorded.
- Any message that `inventory.drop` logs is not modelled.
- `item.parent` is not modelled; ownership is only the item's presence in the inventory.
- The `entity.gamemap.engine` back-reference is not modelled: the world is passed in explicitly.
- Item, drop and equip actions require the item to be in the actor's inventory. An equip action also requires the item to be equippable. Callers pick these from the inventory; `inventory.drop` of an item not carried would raise, and that error path is not modelled.
- Tile graphics and the tile record layout are not modelled. A tile is only a walkable flag: floor and down stairs are walkable, a wall is not (tile_types.py:38-57).
- Python object identity is modelled by distinct entity ids.
- Damage is `max(power - defense, 0)`. The code subtracts only when `power - defense` is positive, which is the same thing, and the model follows the code's test.
- The offset (0, 0) is accepted: a melee with it attacks the first actor on the attacker's own tile, possibly the attacker itself.
- WorldStates.ToggleEquip: "every other equipped item stays" holds for the set-of-ids model of equipment only. With slot replacement, equipping A while B is worn in the same slot unequips B.
- Actions.EquipSpec: "only the item's equipped status flips" and "nothing else in the world changes" hold for the set-of-ids model of equipment only. With slot replacement, equipping an item also unequips whatever is worn in its slot. The same applies to Engine.World.Equip, which is proved equal to it.
- Engine.World.Equip: gives exactly the state of `Actions.EquipSpec`, so it carries the same set-of-ids limitation.
- ActionProperties.EquipTwiceRestores: holds for the set-of-ids model of equipment only. With slot replacement, equipping A over a worn B and then A again leaves B unequipped, so the world is not restored.
- Actions.UseItemSpec: the outcome is always Ok and only the activation trace changes, because the stand-in for `consumable.activate` records the call and does nothing else. In the program `activate` may raise `Impossible`, which the item action passes on, and may change the world; neither is modelled.
- Fighter `power` and `defense` are plain stored fields. Any equipment bonus the fighter component computes for them is not tied to the equipment set.
- The order of the map's entities is the model's chosen deterministic storage order. The container type the program uses for them is not part of this model; the lookups and removal are stated against that order.
