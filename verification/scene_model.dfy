/** `SceneModel` (src/blender_camera/models/scene_model.py): a registry of
    scenes keyed by their own id. */
module SceneRegistry {
  import opened Wrappers
  import opened Scenes
  import EntityRegistry
  import OrderedDict

  datatype SceneModel = SceneModel(scenes: OrderedDict.Dict<Scene>)

  /** The dictionary is well formed, every scene sits under its own id and
      every scene's entity registry is well formed. */
  ghost predicate Valid(sm: SceneModel) {
    && sm.scenes.Valid()
    && forall k :: k in sm.scenes.entries ==>
         sm.scenes.entries[k].id == k && EntityRegistry.Valid(sm.scenes.entries[k].entityModel)
  }

  /** The scene ids present. */
  function SceneIds(sm: SceneModel): set<string> {
    sm.scenes.entries.Keys
  }

  /** `SceneModel()`: empty, and `get_scenes()` is `[]`. */
  function New(): (sm: SceneModel)
    ensures Valid(sm)
    ensures SceneIds(sm) == {}
    ensures GetScenes(sm) == []
  {
    SceneModel(OrderedDict.Empty())
  }

  /** `get_scenes`: every stored scene once, in creation order. */
  function GetScenes(sm: SceneModel): (r: seq<Scene>)
    requires sm.scenes.Valid()
    ensures |r| == |SceneIds(sm)| == |sm.scenes.order|
    ensures forall i :: 0 <= i < |r| ==> r[i] == sm.scenes.entries[sm.scenes.order[i]]
    ensures forall id :: id in SceneIds(sm) ==> sm.scenes.entries[id] in r
  {
    OrderedDict.Values(sm.scenes)
  }

  /** `get_scene(id)`: `None` exactly when `id` is not a key. */
  function GetScene(sm: SceneModel, id: string): (r: Option<Scene>)
    ensures r.None? <==> id !in SceneIds(sm)
    ensures r.Some? ==> r.value == sm.scenes.entries[id]
  {
    OrderedDict.Get(sm.scenes, id)
  }

  /** `create_scene()` with `freshId` standing for `str(uuid4())`: adds
      exactly one entry, keyed by the new scene's id, holding an empty
      scene; returns that scene; leaves every other scene alone. */
  function CreateScene(sm: SceneModel, freshId: string): (r: (SceneModel, Scene))
    requires Valid(sm)
    requires freshId !in SceneIds(sm)
    ensures Valid(r.0)
    ensures r.1.id == freshId
    ensures EntityRegistry.Ids(r.1.entityModel) == {}
    ensures SceneIds(r.0) == SceneIds(sm) + {freshId}
    ensures |SceneIds(r.0)| == |SceneIds(sm)| + 1
    ensures GetScene(r.0, freshId) == Some(r.1)
    ensures forall id :: id != freshId ==> GetScene(r.0, id) == GetScene(sm, id)
  {
    var scene := NewScene(freshId);
    var scenes := OrderedDict.Set(sm.scenes, freshId, scene);
    (SceneModel(scenes), scenes.entries[freshId])
  }

  /** `get_scenes` lists scenes in creation order: a created scene comes
      last. */
  lemma CreateAppends(sm: SceneModel, freshId: string)
    requires Valid(sm)
    requires freshId !in SceneIds(sm)
    ensures GetScenes(CreateScene(sm, freshId).0) == GetScenes(sm) + [CreateScene(sm, freshId).1]
  {
    OrderedDict.SetAppends(sm.scenes, freshId, NewScene(freshId));
  }

  /** `delete_scene(id)`: removes only `id`; an absent id is a no-op. */
  function DeleteScene(sm: SceneModel, id: string): (r: SceneModel)
    requires Valid(sm)
    ensures Valid(r)
    ensures SceneIds(r) == SceneIds(sm) - {id}
    ensures forall other :: other != id ==> GetScene(r, other) == GetScene(sm, other)
    ensures id !in SceneIds(sm) ==> r == sm
  {
    SceneModel(OrderedDict.Delete(sm.scenes, id))
  }

  /** Whatever `create_scene` returned is then found by `get_scene`, and
      deleting it makes `get_scene` report `None` again. */
  lemma CreateGetDelete(sm: SceneModel, freshId: string)
    requires Valid(sm)
    requires freshId !in SceneIds(sm)
    ensures var (sm', scene) := CreateScene(sm, freshId);
            && GetScene(sm', scene.id) == Some(scene)
            && GetScene(DeleteScene(sm', scene.id), scene.id).None?
            && SceneIds(DeleteScene(sm', scene.id)) == SceneIds(sm)
  {
  }
}
