/**
 * The read-only queries the actions make of the current game map: bounds,
 * tile walkability and the entity-at-location lookups. The map's own code is
 * not part of this model; each lookup is given its minimal meaning, "the
 * first entity in storage order that matches".
 */
module GameMaps {
  import opened Wrappers
  import opened Entities

  /**
   * One floor: its size, the walkable flag of every tile (indexed `tiles[x][y]`,
   * the only tile field the actions read), the entities on it in storage order,
   * and the two stair coordinates.
   */
  datatype GameMap = GameMap(
    width: int,
    height: int,
    tiles: seq<seq<bool>>,
    entities: seq<Entity>,
    downstairs: Pos,
    upstairs: Pos)

  predicate WellFormed(m: GameMap)
  {
    0 <= m.width && 0 <= m.height && |m.tiles| == m.width &&
    forall x :: 0 <= x < |m.tiles| ==> |m.tiles[x]| == m.height
  }

  /** `in_bounds(x, y)`. */
  predicate InBounds(m: GameMap, p: Pos)
  {
    0 <= p.x < m.width && 0 <= p.y < m.height
  }

  /** `tiles[x, y]["walkable"]`: only defined once the position is known to be in bounds. */
  function Walkable(m: GameMap, p: Pos): bool
    requires WellFormed(m) && InBounds(m, p)
  {
    m.tiles[p.x][p.y]
  }

  /** The three lookups the actions make. */
  datatype Query = BlockingEntity | Actor | GroundItem

  predicate Matches(e: Entity, q: Query, p: Pos)
  {
    e.pos == p &&
    match q
    case BlockingEntity => e.blocks
    case Actor => e.IsActor()
    case GroundItem => e.IsItem()
  }

  /**
   * The first entity, in storage order, that answers the query at `p`:
   * `get_blocking_entity_at_location`, `get_actor_at_location`, and the
   * scan of `game_map.items` in the pickup action.
   */
  function FirstAt(es: seq<Entity>, q: Query, p: Pos): (r: Option<nat>)
    ensures r.Some? ==> r.value < |es| && Matches(es[r.value], q, p)
    ensures r.Some? ==> forall j :: 0 <= j < r.value ==> !Matches(es[j], q, p)
    ensures r.None? <==> forall j :: 0 <= j < |es| ==> !Matches(es[j], q, p)
  {
    if |es| == 0 then None
    else if Matches(es[0], q, p) then Some(0)
    else
      match FirstAt(es[1..], q, p)
      case None => None
      case Some(k) => Some(k + 1)
  }

  /** A lookup finds nothing exactly when no stored entity answers it. */
  lemma FirstAtNone(es: seq<Entity>, q: Query, p: Pos)
    ensures FirstAt(es, q, p).None? <==> forall e :: e in es ==> !Matches(e, q, p)
  {
    if FirstAt(es, q, p).Some? {
      assert es[FirstAt(es, q, p).value] in es;
    }
  }

  /** `get_blocking_entity_at_location(x, y)`, as an index into the map's entities. */
  function GetBlockingEntityAtLocation(m: GameMap, p: Pos): Option<nat>
  {
    FirstAt(m.entities, BlockingEntity, p)
  }

  /** `get_actor_at_location(x, y)`, as an index into the map's entities. */
  function GetActorAtLocation(m: GameMap, p: Pos): Option<nat>
  {
    FirstAt(m.entities, Actor, p)
  }

  /** Some item lies on the map at `p`. */
  predicate ItemHere(m: GameMap, p: Pos)
  {
    exists e :: e in m.entities && e.IsItem() && e.pos == p
  }
}
