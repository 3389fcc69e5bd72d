/**
 * Properties that relate several resolutions: bumping is melee or movement,
 * waiting any number of times changes nothing, equipping twice restores the
 * equipment, dropping what was just picked up restores the inventory, and
 * stepping back after a move restores the world.
 */
module ActionProperties {
  import opened Wrappers
  import opened Entities
  import opened GameMaps
  import opened WorldStates
  import opened Actions

  /**
   * A bump resolves exactly as the melee action with the same actor and
   * offset when an actor stands at the destination, and exactly as the
   * movement action otherwise: same end state, same outcome.
   */
  lemma BumpResolvesAsMeleeOrMovement(s: WorldState, actor: EntityId, dx: int, dy: int)
    requires Valid(s) && ActorReady(s, actor)
    ensures TargetActor(s, actor, dx, dy).Some? ==>
              Resolve(s, Bump(actor, dx, dy)) == Resolve(s, Melee(actor, dx, dy)) == MeleeSpec(s, actor, dx, dy)
    ensures TargetActor(s, actor, dx, dy).None? ==>
              Resolve(s, Bump(actor, dx, dy)) == Resolve(s, Movement(actor, dx, dy)) == MovementSpec(s, actor, dx, dy)
  {
    var d := Dispatch(s, actor, dx, dy);
    assert Resolve(s, Bump(actor, dx, dy)) == Step(s, d);
    if TargetActor(s, actor, dx, dy).Some? {
      assert d == Melee(actor, dx, dy);
      assert Step(s, d) == MeleeSpec(s, actor, dx, dy);
    } else {
      assert d == Movement(actor, dx, dy);
      assert Step(s, d) == MovementSpec(s, actor, dx, dy);
    }
  }

  /** The world after the actor waits `n` turns in a row. */
  function WaitRepeatedly(s: WorldState, actor: EntityId, n: nat): WorldState
    requires Valid(s) && ActorReady(s, actor)
    decreases n
  {
    if n == 0 then s else WaitRepeatedly(Resolve(s, Wait(actor)).state, actor, n - 1)
  }

  /** Waiting, however many times, never changes the world. */
  lemma {:induction false} WaitChangesNothing(s: WorldState, actor: EntityId, n: nat)
    requires Valid(s) && ActorReady(s, actor)
    ensures WaitRepeatedly(s, actor, n) == s
    decreases n
  {
    if n > 0 {
      assert Resolve(s, Wait(actor)).state == s;
      WaitChangesNothing(s, actor, n - 1);
    }
  }

  /** Equipping the same item twice leaves the world as it was. */
  lemma EquipTwiceRestores(s: WorldState, actor: EntityId, item: EntityId)
    requires Valid(s) && Admissible(s, Equip(actor, item))
    ensures
      var once := Resolve(s, Equip(actor, item)).state;
      Admissible(once, Equip(actor, item)) && Resolve(once, Equip(actor, item)).state == s
  {
    var once := Resolve(s, Equip(actor, item)).state;
    assert once.inventories == s.inventories && once.gameMap == s.gameMap;
    assert CarriedItem(once, actor, item) == CarriedItem(s, actor, item);
    var twice := Resolve(once, Equip(actor, item)).state;
    assert twice.equipment[actor] == s.equipment[actor];
    assert twice.equipment == s.equipment;
  }

  /**
   * Dropping the item just picked up gives the actor back its inventory and
   * equipment exactly, and the map the same entities: the item lies where it
   * lay, now at the end of the storage order.
   */
  lemma PickupThenDropRestores(s: WorldState, actor: EntityId)
    requires Valid(s) && ActorReady(s, actor) && PickupSpec(s, actor).outcome.Ok?
    ensures
      var picked := PickupSpec(s, actor).state;
      var item := picked.inventories[actor].items[|s.inventories[actor].items|];
      && Admissible(picked, Drop(actor, item.id, None))
      && !Worn(picked, actor, item.id)
      && var dropped := Resolve(picked, Drop(actor, item.id, None)).state;
         && dropped.inventories == s.inventories
         && dropped.equipment == s.equipment
         && multiset(dropped.gameMap.entities) == multiset(s.gameMap.entities)
  {
    var es := s.gameMap.entities;
    var k := FirstAt(es, GroundItem, ActorPos(s, actor)).value;
    var item := es[k];
    var inv := s.inventories[actor];
    PickedItemIsLooseAndHere(s, actor, k);
    var picked := PickupSpec(s, actor).state;
    DropLastItem(picked, actor, inv, item);
    DropUnequipped(picked, actor, item.id);
    var dropped := InventoryDrop(picked, actor, item.id);
    assert dropped.inventories == picked.inventories[actor := inv];
    UpdateUndone(s.inventories, actor, inv.(items := inv.items + [item]));
    assert dropped.gameMap.entities == RemoveAt(es, k) + [item];
  }

  /** Overwriting an entry and then writing its old value back restores the map. */
  lemma UpdateUndone<K, V>(m: map<K, V>, key: K, v: V)
    requires key in m
    ensures m[key := v][key := m[key]] == m
  {
  }

  /**
   * After the pickup, the item taken is the last one carried, is not
   * equipped, and lies where the actor (which has not moved) stands.
   */
  lemma PickedItemIsLooseAndHere(s: WorldState, actor: EntityId, k: nat)
    requires Valid(s) && ActorReady(s, actor) && PickupSpec(s, actor).outcome.Ok?
    requires k == FirstAt(s.gameMap.entities, GroundItem, ActorPos(s, actor)).value
    ensures
      var picked := PickupSpec(s, actor).state;
      var item := s.gameMap.entities[k];
      && picked == AfterPickup(s, actor, k)
      && picked.inventories[actor].items == s.inventories[actor].items + [item]
      && picked.equipment == s.equipment
      && item.id !in picked.equipment[actor]
      && ActorPos(picked, actor) == ActorPos(s, actor) == item.pos
  {
    var es := s.gameMap.entities;
    var inv := s.inventories[actor];
    var item := es[k];
    PickupTakesFirstItem(s, actor, k);
    assert item in es;
    assert item.id !in Ids(inv.items);
    assert EquipmentValid(s.equipment[actor], inv);
    AfterPickupKeepsActorPos(s, actor, k);
  }

  /** Picking up leaves the actor where it stood. */
  lemma AfterPickupKeepsActorPos(s: WorldState, actor: EntityId, k: nat)
    requires Valid(s) && ActorReady(s, actor) && !InventoryFullFor(s, actor)
    requires k < |s.gameMap.entities| && s.gameMap.entities[k].IsItem()
    ensures Valid(AfterPickup(s, actor, k)) && ActorReady(AfterPickup(s, actor, k), actor)
    ensures ActorPos(AfterPickup(s, actor, k), actor) == ActorPos(s, actor)
  {
    var es := s.gameMap.entities;
    PickupKeepsValid(s, actor, k);
    assert es[ActorIndex(s, actor)] in es;
    IndexAfterRemove(es, k, actor);
  }

  /** `inventory.drop` of the last carried item, when it lies where its owner stands. */
  lemma DropLastItem(t: WorldState, actor: EntityId, inv: Inventory, item: Entity)
    requires Valid(t) && ActorReady(t, actor)
    requires t.inventories[actor].items == inv.items + [item] && t.inventories[actor].capacity == inv.capacity
    requires item.pos == ActorPos(t, actor)
    ensures Carries(t, actor, item.id)
    ensures InventoryDrop(t, actor, item.id).inventories[actor] == inv
    ensures InventoryDrop(t, actor, item.id).gameMap.entities == t.gameMap.entities + [item]
  {
    var carried := t.inventories[actor].items;
    assert carried[|inv.items|] == item;
    assert item in carried;
    var at := IndexOf(carried, item.id).value;
    assert at == |inv.items| by {
      assert DistinctIds(carried);
    }
    assert RemoveAt(carried, at) == inv.items;
    assert CarriedItem(t, actor, item.id) == item by {
      assert DistinctIds(carried);
    }
  }

  /**
   * Moving back by the opposite offset undoes a move, provided the tile left
   * behind is in bounds and walkable and no other entity blocks it.
   */
  lemma MoveThenBackRestores(s: WorldState, actor: EntityId, dx: int, dy: int)
    requires Valid(s) && ActorReady(s, actor) && MovementSpec(s, actor, dx, dy).outcome.Ok?
    requires InBounds(s.gameMap, ActorPos(s, actor)) && Walkable(s.gameMap, ActorPos(s, actor))
    requires forall e :: e in s.gameMap.entities && e.id != actor ==> !(e.blocks && e.pos == ActorPos(s, actor))
    ensures
      var moved := MovementSpec(s, actor, dx, dy).state;
      ActorReady(moved, actor) && MovementSpec(moved, actor, -dx, -dy) == Resolution(s, Ok)
  {
    var es := s.gameMap.entities;
    var i := ActorIndex(s, actor);
    var origin := ActorPos(s, actor);
    var dest := DestXY(s, actor, dx, dy);
    var moved := MovementSpec(s, actor, dx, dy).state;
    var es' := moved.gameMap.entities;
    assert es' == es[i := es[i].(pos := dest)];
    assert ActorIndex(moved, actor) == i by {
      assert DistinctIds(es');
      assert es'[i].id == actor;
    }
    assert DestXY(moved, actor, -dx, -dy) == origin;
    assert es[i] in es;
    forall e | e in es' ensures !(e.blocks && e.pos == origin) {
      var j :| 0 <= j < |es'| && es'[j] == e;
      if j != i {
        assert es[j] in es;
        assert es[j].id != actor by {
          assert DistinctIds(es);
        }
      }
    }
    assert Passable(moved.gameMap, origin);
    assert es'[i := es'[i].(pos := origin)] == es;
  }

  /**
   * A blocking actor cannot move by the zero offset: the blocking check finds
   * the actor itself at the destination.
   */
  lemma StandingStillIsBlocked(s: WorldState, actor: EntityId)
    requires Valid(s) && ActorReady(s, actor) && s.gameMap.entities[ActorIndex(s, actor)].blocks
    ensures MovementSpec(s, actor, 0, 0) == Resolution(s, Impossible(Blocked))
  {
    var self := s.gameMap.entities[ActorIndex(s, actor)];
    assert self in s.gameMap.entities;
    assert DestXY(s, actor, 0, 0) == self.pos;
  }
}
