/**
 * The entities the action layer reads and writes: actors (with fighter
 * stats) and items (with optional consumable and equippable capabilities).
 * An entity is identified by its id, which stands for Python object identity.
 */
module Entities {
  import opened Wrappers

  type EntityId = nat

  /** A tile coordinate `(x, y)`. */
  datatype Pos = Pos(x: int, y: int)

  datatype EquipmentType = Weapon | Armor

  /** The fighter component: current hit points, attack power and defense. */
  datatype Fighter = Fighter(hp: int, power: int, defense: int)

  /** What an entity is: an actor with a fighter, or an item whose capabilities may be absent. */
  datatype Kind =
    | ActorKind(fighter: Fighter)
    | ItemKind(consumable: bool, equippable: Option<EquipmentType>)

  datatype Entity = Entity(id: EntityId, pos: Pos, blocks: bool, kind: Kind) {
    predicate IsActor() { kind.ActorKind? }
    predicate IsItem() { kind.ItemKind? }
  }

  /** The ids of a collection of entities. */
  function Ids(es: seq<Entity>): set<EntityId>
  {
    set e | e in es :: e.id
  }

  /** No two entries of the collection are the same entity. */
  predicate DistinctIds(es: seq<Entity>)
  {
    forall i, j :: 0 <= i < j < |es| ==> es[i].id != es[j].id
  }

  /** Where the entity with the given id is stored, if anywhere. */
  function IndexOf(es: seq<Entity>, id: EntityId): (r: Option<nat>)
    ensures r.Some? ==> r.value < |es| && es[r.value].id == id
    ensures r.None? <==> id !in Ids(es)
  {
    if |es| == 0 then None
    else if es[0].id == id then Some(0)
    else
      assert Ids(es) == {es[0].id} + Ids(es[1..]) by {
        assert es == [es[0]] + es[1..];
      }
      match IndexOf(es[1..], id)
      case None => None
      case Some(k) => Some(k + 1)
  }

  /**
   * `entities.remove(item)`, as removal of the entry at index `k`: the
   * others keep their order. Storage order is the model's chosen
   * deterministic order for the map's entities.
   */
  function RemoveAt(es: seq<Entity>, k: nat): (r: seq<Entity>)
    requires k < |es|
    ensures |r| == |es| - 1
    ensures forall j :: 0 <= j < k ==> r[j] == es[j]
    ensures forall j :: k <= j < |r| ==> r[j] == es[j + 1]
    ensures multiset(r) + multiset{es[k]} == multiset(es)
  {
    assert es == es[..k] + [es[k]] + es[k + 1..];
    es[..k] + es[k + 1..]
  }

  lemma RemoveAtIds(es: seq<Entity>, k: nat)
    requires k < |es| && DistinctIds(es)
    ensures DistinctIds(RemoveAt(es, k))
    ensures Ids(RemoveAt(es, k)) == Ids(es) - {es[k].id}
    ensures forall e :: e in RemoveAt(es, k) ==> e in es
  {
    var r := RemoveAt(es, k);
    forall e | e in r ensures e in es {
      assert e in multiset(r);
    }
    forall id | id in Ids(r) ensures id in Ids(es) - {es[k].id} {
      var j :| 0 <= j < |r| && r[j].id == id;
      if j < k { assert r[j] == es[j]; } else { assert r[j] == es[j + 1]; }
    }
    forall id | id in Ids(es) - {es[k].id} ensures id in Ids(r) {
      var j :| 0 <= j < |es| && es[j].id == id;
      if j < k { assert r[j] == es[j]; } else { assert r[j - 1] == es[j]; }
    }
  }

  /** Removing another entry keeps the entity with the given id, which is still found. */
  lemma IndexAfterRemove(es: seq<Entity>, k: nat, id: EntityId)
    requires k < |es| && DistinctIds(es) && id in Ids(es) && es[k].id != id
    ensures IndexOf(RemoveAt(es, k), id).Some?
    ensures RemoveAt(es, k)[IndexOf(RemoveAt(es, k), id).value] == es[IndexOf(es, id).value]
  {
    var rest := RemoveAt(es, k);
    RemoveAtIds(es, k);
    var i := IndexOf(es, id).value;
    var at := if i < k then i else i - 1;
    assert rest[at] == es[i];
    assert rest[at] in rest;
  }

  lemma AppendIds(es: seq<Entity>, e: Entity)
    requires DistinctIds(es) && e.id !in Ids(es)
    ensures DistinctIds(es + [e])
    ensures Ids(es + [e]) == Ids(es) + {e.id}
  {
    var r := es + [e];
    forall i, j | 0 <= i < j < |r| ensures r[i].id != r[j].id {
      if j == |es| { assert r[i] in es; }
    }
  }

  lemma ReplaceIds(es: seq<Entity>, k: nat, e: Entity)
    requires k < |es| && e.id == es[k].id
    ensures DistinctIds(es) ==> DistinctIds(es[k := e])
    ensures Ids(es[k := e]) == Ids(es)
  {
    var r := es[k := e];
    forall id | id in Ids(es) ensures id in Ids(r) {
      var j :| 0 <= j < |es| && es[j].id == id;
      assert r[j].id == id;
    }
  }
}
