/** The request handlers of `EntityIdRouter`
    (src/blender_camera/api/routes/scenes/scene_id/entities/entity_id.py),
    as pure functions over the scene registry. An `HTTPException` becomes
    a `Failed` outcome or an `Err` result carrying its status and detail;
    an in-place mutation becomes the updated registry returned beside the
    outcome. */
module EntityRoutes {
  import opened Wrappers
  import opened Poses
  import opened Entities
  import opened EntityRegistry
  import opened Scenes
  import opened SceneRegistry
  import OrderedDict

  datatype HttpError = HttpError(status: int, detail: string)

  const SceneNotFound: HttpError := HttpError(404, "Scene not found")
  const EntityNotFound: HttpError := HttpError(404, "Entity not found")
  const EntityHasNoPose: HttpError := HttpError(400, "Entity has no pose")
  const InvalidPoseFormat: HttpError := HttpError(400, "Invalid pose format")

  /** What a handler without a response body reports. */
  datatype Outcome = NoContent | Failed(error: HttpError)

  /** The registry of the scene `sceneId`, which must be present. */
  function SceneEntities(sm: SceneModel, sceneId: string): EntityModel
    requires sceneId in SceneIds(sm)
  {
    sm.scenes.entries[sceneId].entityModel
  }

  /** `sm` with the entity registry of scene `sceneId` replaced by `em`. */
  function WithSceneEntities(sm: SceneModel, sceneId: string, em: EntityModel): (r: SceneModel)
    requires SceneRegistry.Valid(sm) && sceneId in SceneIds(sm)
    requires EntityRegistry.Valid(em)
    ensures SceneRegistry.Valid(r)
    ensures SceneIds(r) == SceneIds(sm)
    ensures r.scenes.order == sm.scenes.order
    ensures SceneEntities(r, sceneId) == em
    ensures forall other :: other != sceneId ==> GetScene(r, other) == GetScene(sm, other)
  {
    SceneModel(OrderedDict.Set(sm.scenes, sceneId, Scene(sceneId, em)))
  }

  /** `_get_entity_model_with_http_exception`: 404 "Scene not found" for
      an unknown scene, else that scene's entity registry. */
  function GetEntityModelOrError(sm: SceneModel, sceneId: string): (r: Result<EntityModel, HttpError>)
    ensures r.Err? <==> sceneId !in SceneIds(sm)
    ensures r.Err? ==> r.error == SceneNotFound
    ensures r.Ok? ==> r.value == SceneEntities(sm, sceneId)
  {
    match GetScene(sm, sceneId)
    case None => Err(SceneNotFound)
    case Some(scene) => Ok(scene.entityModel)
  }

  /** `_get_entity_with_http_exception`: the scene is resolved first, so an
      unknown scene wins over an unknown entity; then 404 "Entity not found";
      else the stored entity. */
  function GetEntityOrError(sm: SceneModel, sceneId: string, entityId: string): (r: Result<Entity, HttpError>)
    ensures sceneId !in SceneIds(sm) ==> r == Err(SceneNotFound)
    ensures sceneId in SceneIds(sm) && entityId !in Ids(SceneEntities(sm, sceneId)) ==> r == Err(EntityNotFound)
    ensures r.Ok? <==> sceneId in SceneIds(sm) && entityId in Ids(SceneEntities(sm, sceneId))
    ensures r.Ok? ==> r.value == SceneEntities(sm, sceneId).entities.entries[entityId]
  {
    match GetEntityModelOrError(sm, sceneId)
    case Err(e) => Err(e)
    case Ok(em) =>
      match GetEntity(em, entityId)
      case None => Err(EntityNotFound)
      case Some(entity) => Ok(entity)
  }

  /** `_delete_entity`: 404 only for an unknown scene; in a known scene the
      entity is removed if present and an absent id succeeds silently. */
  function DeleteEntityRoute(sm: SceneModel, sceneId: string, entityId: string): (r: (SceneModel, Outcome))
    requires SceneRegistry.Valid(sm)
    ensures SceneRegistry.Valid(r.0)
    ensures r.1.Failed? <==> sceneId !in SceneIds(sm)
    ensures r.1.Failed? ==> r.1.error == SceneNotFound && r.0 == sm
    ensures r.1.NoContent? ==>
              && SceneIds(r.0) == SceneIds(sm)
              && Ids(SceneEntities(r.0, sceneId)) == Ids(SceneEntities(sm, sceneId)) - {entityId}
              && (forall other :: other != sceneId ==> GetScene(r.0, other) == GetScene(sm, other))
              && (forall other :: other != entityId ==>
                    GetEntity(SceneEntities(r.0, sceneId), other) == GetEntity(SceneEntities(sm, sceneId), other))
    ensures sceneId in SceneIds(sm) && entityId !in Ids(SceneEntities(sm, sceneId)) ==> r == (sm, NoContent)
  {
    match GetEntityModelOrError(sm, sceneId)
    case Err(e) => (sm, Failed(e))
    case Ok(em) =>
      if entityId !in Ids(em) then (sm, NoContent)
      else (WithSceneEntities(sm, sceneId, DeleteEntity(em, entityId)), NoContent)
  }

  /** `_get_entity_pose`: the lookup errors first, then 400 "Entity has no
      pose" for an entity without a `pose` attribute, else the stored pose. */
  function GetEntityPose(sm: SceneModel, sceneId: string, entityId: string): (r: Result<Pose, HttpError>)
    ensures GetEntityOrError(sm, sceneId, entityId).Err? ==> r == Err(GetEntityOrError(sm, sceneId, entityId).error)
    ensures GetEntityOrError(sm, sceneId, entityId).Ok? ==>
              var e := GetEntityOrError(sm, sceneId, entityId).value;
              && (!HasPose(e) ==> r == Err(EntityHasNoPose))
              && (HasPose(e) ==> r == Ok(e.pose.value))
  {
    match GetEntityOrError(sm, sceneId, entityId)
    case Err(e) => Err(e)
    case Ok(entity) =>
      if !HasPose(entity) then Err(EntityHasNoPose) else Ok(entity.pose.value)
  }

  /** `_set_entity_pose`: unknown scene, unknown entity, no `pose`
      attribute and a value `validate_pose` rejects are checked in that
      order and the first that applies is reported, with the registry left
      exactly as it was. Otherwise only that entity's pose is replaced:
      every other field of it, every other entity and every other scene
      stay as they were. */
  function SetEntityPose(sm: SceneModel, sceneId: string, entityId: string, pose: PyValue): (r: (SceneModel, Outcome))
    requires SceneRegistry.Valid(sm)
    ensures SceneRegistry.Valid(r.0)
    ensures r.1.Failed? ==> r.0 == sm
    ensures sceneId !in SceneIds(sm) ==> r.1 == Failed(SceneNotFound)
    ensures sceneId in SceneIds(sm) && entityId !in Ids(SceneEntities(sm, sceneId)) ==>
              r.1 == Failed(EntityNotFound)
    ensures GetEntityOrError(sm, sceneId, entityId).Ok? ==>
              var e := GetEntityOrError(sm, sceneId, entityId).value;
              && (!HasPose(e) ==> r.1 == Failed(EntityHasNoPose))
              && (HasPose(e) && !ValidatePose(pose) ==> r.1 == Failed(InvalidPoseFormat))
              && (HasPose(e) && ValidatePose(pose) ==> r.1 == NoContent)
    ensures r.1.NoContent? ==>
              && ValidatePose(pose)
              && SceneIds(r.0) == SceneIds(sm)
              && Ids(SceneEntities(r.0, sceneId)) == Ids(SceneEntities(sm, sceneId))
              && GetEntityPose(r.0, sceneId, entityId) == Ok(AsPose(pose))
              && GetEntity(SceneEntities(r.0, sceneId), entityId)
                 == Some(SceneEntities(sm, sceneId).entities.entries[entityId].(pose := Some(AsPose(pose))))
              && (forall other :: other != entityId ==>
                    GetEntity(SceneEntities(r.0, sceneId), other) == GetEntity(SceneEntities(sm, sceneId), other))
              && (forall other :: other != sceneId ==> GetScene(r.0, other) == GetScene(sm, other))
  {
    match GetEntityOrError(sm, sceneId, entityId)
    case Err(e) => (sm, Failed(e))
    case Ok(entity) =>
      if !HasPose(entity) then (sm, Failed(EntityHasNoPose))
      else if !ValidatePose(pose) then (sm, Failed(InvalidPoseFormat))
      else
        var em := AddEntity(SceneEntities(sm, sceneId), entity.(pose := Some(AsPose(pose)))).0;
        (WithSceneEntities(sm, sceneId, em), NoContent)
  }

  /** An unknown scene is reported before the entity id or the pose is
      looked at: the answer does not depend on either. */
  lemma UnknownSceneShortCircuits(sm: SceneModel, sceneId: string, e1: string, e2: string, p1: PyValue, p2: PyValue)
    requires SceneRegistry.Valid(sm)
    requires sceneId !in SceneIds(sm)
    ensures GetEntityOrError(sm, sceneId, e1) == GetEntityOrError(sm, sceneId, e2) == Err(SceneNotFound)
    ensures SetEntityPose(sm, sceneId, e1, p1) == SetEntityPose(sm, sceneId, e2, p2) == (sm, Failed(SceneNotFound))
    ensures GetEntityPose(sm, sceneId, e1) == Err(SceneNotFound)
  {
  }

  /** Setting a valid pose and reading it back returns that pose. */
  lemma SetThenGetPose(sm: SceneModel, sceneId: string, entityId: string, p: Pose)
    requires SceneRegistry.Valid(sm)
    requires |p| == 6
    requires GetEntityOrError(sm, sceneId, entityId).Ok?
    requires HasPose(GetEntityOrError(sm, sceneId, entityId).value)
    ensures SetEntityPose(sm, sceneId, entityId, AsPyValue(p)).1 == NoContent
    ensures GetEntityPose(SetEntityPose(sm, sceneId, entityId, AsPyValue(p)).0, sceneId, entityId) == Ok(p)
  {
    PoseRoundTrip(p);
  }
}
