/** `Scene` (src/blender_camera/models/scene.py): an id together with an
    entity registry and a camera model that shares that same registry. */
module Scenes {
  import opened Wrappers
  import opened Poses
  import opened Entities
  import opened EntityRegistry
  import opened CameraRegistry

  datatype Scene = Scene(id: string, entityModel: EntityModel) {

    /** `scene.camera_model`, built over this scene's own entity model; the
        Python objects alias, so the registry is not copied. */
    function Cameras(): CameraModel {
      CameraModel(entityModel)
    }
  }

  /** `Scene(id)`: carries `id`, starts with an empty entity registry, and
      its camera model wraps that registry. */
  function NewScene(id: string): (s: Scene)
    ensures s.id == id
    ensures Valid(s.entityModel) && Ids(s.entityModel) == {}
    ensures GetEntities(s.entityModel) == []
    ensures s.Cameras() == CameraModel(s.entityModel)
  {
    Scene(id, EntityRegistry.New())
  }

  /** `scene.camera_model.create_camera(...)`: because the camera model
      shares the scene's registry, the new camera is then visible through
      `scene.entity_model`, also when filtered by the `Camera` class. */
  function CreateCameraInScene(s: Scene, freshId: string, pose: Option<Pose>, intrinsics: Option<Intrinsics>)
    : (r: (Scene, Entity))
    requires Valid(s.entityModel)
    requires freshId !in Ids(s.entityModel)
    ensures r.0.id == s.id
    ensures Valid(r.0.entityModel)
    ensures r.1.id == freshId
    ensures GetEntity(r.0.entityModel, freshId) == Some(r.1)
    ensures GetEntities(r.0.entityModel) == GetEntities(s.entityModel) + [r.1]
    ensures r.1 in GetEntitiesByType(r.0.entityModel, CameraClass)
    ensures forall id :: id != freshId ==> GetEntity(r.0.entityModel, id) == GetEntity(s.entityModel, id)
  {
    var (cm, camera) := CreateCamera(s.Cameras(), freshId, pose, intrinsics);
    (Scene(s.id, cm.entityModel), camera)
  }

  /** A camera created in a new scene is the scene's only entity and the
      only one `get_entities_by_type(Camera)` returns. */
  lemma FirstCameraIsOnlyCamera(id: string, freshId: string, pose: Option<Pose>, intrinsics: Option<Intrinsics>)
    ensures var (s, camera) := CreateCameraInScene(NewScene(id), freshId, pose, intrinsics);
            && GetEntities(s.entityModel) == [camera]
            && GetEntitiesByType(s.entityModel, CameraClass) == [camera]
            && |GetEntitiesByType(s.entityModel, CameraClass)| == 1
  {
    var (s, camera) := CreateCameraInScene(NewScene(id), freshId, pose, intrinsics);
    assert GetEntities(s.entityModel) == [camera];
    assert IsInstance(camera, CameraClass);
    FilterCons(camera, [], CameraClass);
    assert [camera] + [] == [camera];
  }
}
