/** `EntityModel` (src/blender_camera/models/entity_model.py): a registry
    of entities keyed by their own id. */
module EntityRegistry {
  import opened Wrappers
  import opened Entities
  import OrderedDict

  datatype EntityModel = EntityModel(entities: OrderedDict.Dict<Entity>)

  /** The dictionary is well formed and every entity sits under its own id. */
  ghost predicate Valid(m: EntityModel) {
    && m.entities.Valid()
    && forall k :: k in m.entities.entries ==> m.entities.entries[k].id == k
  }

  /** The ids present. */
  function Ids(m: EntityModel): set<string> {
    m.entities.entries.Keys
  }

  /** `EntityModel()`: a fresh registry holds nothing and lists nothing. */
  function New(): (m: EntityModel)
    ensures Valid(m)
    ensures Ids(m) == {}
    ensures GetEntities(m) == []
  {
    EntityModel(OrderedDict.Empty())
  }

  /** `get_entities`: every stored entity once, in insertion order; as many
      as there are distinct ids. */
  function GetEntities(m: EntityModel): (r: seq<Entity>)
    requires m.entities.Valid()
    ensures |r| == |Ids(m)| == |m.entities.order|
    ensures forall i :: 0 <= i < |r| ==> r[i] == m.entities.entries[m.entities.order[i]]
    ensures forall id :: id in Ids(m) ==> m.entities.entries[id] in r
    ensures forall i :: 0 <= i < |r| ==> exists id :: id in Ids(m) && m.entities.entries[id] == r[i]
  {
    OrderedDict.Values(m.entities)
  }

  /** The entities of `s` that are instances of `k`, in their order: each
      qualifying element as often as it occurs in `s`, the others never. */
  function Filter(s: seq<Entity>, k: EntityClass): (r: seq<Entity>)
    ensures |r| <= |s|
    ensures forall e :: e in r <==> e in s && IsInstance(e, k)
  {
    if s == [] then []
    else if IsInstance(s[0], k) then [s[0]] + Filter(s[1..], k)
    else Filter(s[1..], k)
  }

  /** Multiplicities: each qualifying element is kept as often as it occurs
      in `s`, every other element never. */
  lemma {:induction false} FilterCounts(s: seq<Entity>, k: EntityClass)
    ensures forall e :: multiset(Filter(s, k))[e] == (if IsInstance(e, k) then multiset(s)[e] else 0)
  {
    if s != [] {
      FilterCounts(s[1..], k);
      assert s == [s[0]] + s[1..];
      FilterCons(s[0], s[1..], k);
    }
  }

  /** One step of the comprehension: the head is kept exactly when it is
      an instance of `k`. */
  lemma FilterCons(x: Entity, rest: seq<Entity>, k: EntityClass)
    ensures Filter([x] + rest, k) == (if IsInstance(x, k) then [x] else []) + Filter(rest, k)
  {
    var t := [x] + rest;
    assert t[0] == x && t[1..] == rest;
  }

  /** The comprehension keeps the relative order: filtering a concatenation
      filters each part and concatenates. */
  lemma {:induction false} FilterConcat(a: seq<Entity>, b: seq<Entity>, k: EntityClass)
    ensures Filter(a + b, k) == Filter(a, k) + Filter(b, k)
  {
    if a == [] {
      assert a + b == b;
    } else {
      var head: seq<Entity> := if IsInstance(a[0], k) then [a[0]] else [];
      assert a == [a[0]] + a[1..];
      assert a + b == [a[0]] + (a[1..] + b);
      FilterCons(a[0], a[1..] + b, k);
      FilterCons(a[0], a[1..], k);
      FilterConcat(a[1..], b, k);
      assert Filter(a + b, k) == head + (Filter(a[1..], k) + Filter(b, k));
    }
  }

  /** `get_entities_by_type(k)`: exactly the stored entities whose class is
      `k` or derives from it, each as often as the listing holds it. */
  function GetEntitiesByType(m: EntityModel, k: EntityClass): (r: seq<Entity>)
    requires m.entities.Valid()
    ensures forall e :: e in r <==> e in GetEntities(m) && IsInstance(e, k)
    ensures forall e :: multiset(r)[e] == (if IsInstance(e, k) then multiset(GetEntities(m))[e] else 0)
  {
    FilterCounts(GetEntities(m), k);
    Filter(GetEntities(m), k)
  }

  /** Filtering keeps everything when every element qualifies. */
  lemma {:induction false} FilterAll(s: seq<Entity>, k: EntityClass)
    requires forall i :: 0 <= i < |s| ==> IsInstance(s[i], k)
    ensures Filter(s, k) == s
  {
    if s != [] {
      FilterAll(s[1..], k);
    }
  }

  /** Filtering by the base class `Entity` returns the whole listing. */
  lemma ByBaseTypeIsAll(m: EntityModel)
    requires m.entities.Valid()
    ensures GetEntitiesByType(m, EntityBase) == GetEntities(m)
  {
    var s := GetEntities(m);
    forall i | 0 <= i < |s| ensures IsInstance(s[i], EntityBase) {
      EveryClassIsEntity(s[i].cls);
    }
    FilterAll(s, EntityBase);
  }

  /** `add_entity(e)`: stores `e` under its own id, overwriting any entity
      with that id, and returns it. Other ids are untouched; the count grows
      by one for a new id and stays for a present one. */
  function AddEntity(m: EntityModel, e: Entity): (r: (EntityModel, Entity))
    requires Valid(m)
    ensures Valid(r.0)
    ensures r.1 == e
    ensures GetEntity(r.0, e.id) == Some(e)
    ensures Ids(r.0) == Ids(m) + {e.id}
    ensures forall id :: id != e.id ==> GetEntity(r.0, id) == GetEntity(m, id)
    ensures e.id in Ids(m) ==> |Ids(r.0)| == |Ids(m)|
    ensures e.id !in Ids(m) ==> |Ids(r.0)| == |Ids(m)| + 1
  {
    (EntityModel(OrderedDict.Set(m.entities, e.id, e)), e)
  }

  /** `get_entity(id)`: `None` exactly when `id` is not a key. */
  function GetEntity(m: EntityModel, id: string): (r: Option<Entity>)
    ensures r.None? <==> id !in Ids(m)
    ensures r.Some? ==> r.value == m.entities.entries[id]
  {
    OrderedDict.Get(m.entities, id)
  }

  /** `delete_entity(id)`: removes `id` and leaves every other id mapped as
      before; an absent id is a silent no-op. */
  function DeleteEntity(m: EntityModel, id: string): (r: EntityModel)
    requires Valid(m)
    ensures Valid(r)
    ensures Ids(r) == Ids(m) - {id}
    ensures forall other :: other != id ==> GetEntity(r, other) == GetEntity(m, other)
    ensures id !in Ids(m) ==> r == m
  {
    EntityModel(OrderedDict.Delete(m.entities, id))
  }

  /** Adding under a new id appends to the listing: `get_entities` keeps
      insertion order. */
  lemma AddAppends(m: EntityModel, e: Entity)
    requires Valid(m)
    requires e.id !in Ids(m)
    ensures GetEntities(AddEntity(m, e).0) == GetEntities(m) + [e]
  {
    OrderedDict.SetAppends(m.entities, e.id, e);
  }

  /** After `add_entity(e)`, looking up `e.id` yields `e`, and it is listed. */
  lemma AddThenGet(m: EntityModel, e: Entity)
    requires Valid(m)
    ensures GetEntity(AddEntity(m, e).0, e.id) == Some(e)
    ensures e in GetEntities(AddEntity(m, e).0)
  {
  }

  /** Deleting what was just added under a fresh id restores the registry's
      contents. */
  lemma AddThenDelete(m: EntityModel, e: Entity)
    requires Valid(m)
    requires e.id !in Ids(m)
    ensures DeleteEntity(AddEntity(m, e).0, e.id).entities.entries == m.entities.entries
  {
    var added := AddEntity(m, e).0;
    var after := DeleteEntity(added, e.id);
    assert Ids(after) == Ids(m);
    forall id | id in Ids(m)
      ensures after.entities.entries[id] == m.entities.entries[id]
    {
      assert GetEntity(after, id) == GetEntity(added, id) == GetEntity(m, id);
    }
  }
}
