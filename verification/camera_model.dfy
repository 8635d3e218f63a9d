/** `CameraModel` (src/blender_camera/models/camera_model.py): creates
    cameras in the entity registry it wraps. */
module CameraRegistry {
  import opened Wrappers
  import opened Poses
  import opened Entities
  import opened EntityRegistry
  import OrderedDict

  datatype CameraModel = CameraModel(entityModel: EntityModel)

  /** `pose or [0, 0, 0, 0, 0, 0]`: both `None` and `[]` are falsy. */
  function PoseOrDefault(pose: Option<Pose>): Pose {
    if pose.None? || pose.value == [] then ZeroPose else pose.value
  }

  /** `create_camera(pose, camera_intrinsics)` with `freshId` standing for
      `str(uuid4())`: a missing or empty pose becomes the all-zero pose, a
      non-empty pose and the intrinsics are stored as given, the registry
      grows by exactly this camera, and the camera returned is the one
      stored. */
  function CreateCamera(cm: CameraModel, freshId: string, pose: Option<Pose>, intrinsics: Option<Intrinsics>)
    : (r: (CameraModel, Entity))
    requires Valid(cm.entityModel)
    requires freshId !in Ids(cm.entityModel)
    ensures Valid(r.0.entityModel)
    ensures r.1.id == freshId && r.1.cls == CameraClass && r.1.intrinsics == intrinsics
    ensures pose.None? || pose == Some([]) ==> r.1.pose == Some(ZeroPose)
    ensures pose.Some? && pose.value != [] ==> r.1.pose == pose
    ensures Ids(r.0.entityModel) == Ids(cm.entityModel) + {freshId}
    ensures |Ids(r.0.entityModel)| == |Ids(cm.entityModel)| + 1
    ensures GetEntity(r.0.entityModel, freshId) == Some(r.1)
    ensures forall id :: id != freshId ==> GetEntity(r.0.entityModel, id) == GetEntity(cm.entityModel, id)
    ensures GetEntities(r.0.entityModel) == GetEntities(cm.entityModel) + [r.1]
  {
    var camera := Entity(freshId, CameraClass, Some(PoseOrDefault(pose)), intrinsics);
    AddAppends(cm.entityModel, camera);
    var (em, stored) := AddEntity(cm.entityModel, camera);
    (CameraModel(em), stored)
  }

  /** `ids` is what a fresh-id source would hand out over successive
      `create_camera` calls: each id is new to the registry as it stands at
      that call. */
  ghost predicate FreshAtEachStep(cm: CameraModel, ids: seq<string>, pose: Option<Pose>, intrinsics: Option<Intrinsics>)
    requires Valid(cm.entityModel)
    decreases |ids|
  {
    ids == [] ||
    (ids[0] !in Ids(cm.entityModel) &&
     FreshAtEachStep(CreateCamera(cm, ids[0], pose, intrinsics).0, ids[1..], pose, intrinsics))
  }

  /** Successive `create_camera` calls under a fresh-id source give pairwise
      distinct ids, none of which was in the registry beforehand. */
  lemma {:induction false} SuccessiveIdsDistinct(cm: CameraModel, ids: seq<string>, pose: Option<Pose>, intrinsics: Option<Intrinsics>)
    requires Valid(cm.entityModel)
    requires FreshAtEachStep(cm, ids, pose, intrinsics)
    ensures OrderedDict.Distinct(ids)
    ensures forall i :: 0 <= i < |ids| ==> ids[i] !in Ids(cm.entityModel)
    decreases |ids|
  {
    if ids != [] {
      var first := CreateCamera(cm, ids[0], pose, intrinsics).0;
      var tail := ids[1..];
      SuccessiveIdsDistinct(first, tail, pose, intrinsics);
      TailFacts(ids, ids[0], Ids(cm.entityModel), Ids(first.entityModel));
    }
  }

  /** Distinctness of a list whose head is new to a tail that is itself
      distinct and avoids both the head and an older set of ids. */
  lemma TailFacts(ids: seq<string>, head: string, before: set<string>, after: set<string>)
    requires |ids| > 0 && ids[0] == head && head !in before
    requires after == before + {head}
    requires OrderedDict.Distinct(ids[1..])
    requires forall k :: 0 <= k < |ids[1..]| ==> ids[1..][k] !in after
    ensures OrderedDict.Distinct(ids)
    ensures forall i :: 0 <= i < |ids| ==> ids[i] !in before
  {
    forall i | 0 <= i < |ids| ensures ids[i] !in before {
      if i > 0 {
        assert ids[i] == ids[1..][i - 1];
      }
    }
    forall i, j | 0 <= i < j < |ids| ensures ids[i] != ids[j] {
      assert ids[j] == ids[1..][j - 1];
      if i > 0 {
        assert ids[i] == ids[1..][i - 1];
      }
    }
  }
}
