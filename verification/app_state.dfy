/** The legacy `AppState` camera registry (src/blender_camera/app_state.py)
    over the plain `Camera` record of src/blender_camera/models/camera.py. */
module LegacyAppState {
  import opened Wrappers
  import opened Poses
  import OrderedDict

  /** `Camera(id, pose)` */
  datatype Camera = Camera(id: string, pose: Pose)

  datatype AppState = AppState(cameras: OrderedDict.Dict<Camera>)

  ghost predicate Valid(st: AppState) {
    && st.cameras.Valid()
    && forall k :: k in st.cameras.entries ==> st.cameras.entries[k].id == k
  }

  function CameraIds(st: AppState): set<string> {
    st.cameras.entries.Keys
  }

  /** `AppState()`: no cameras. */
  function New(): (st: AppState)
    ensures Valid(st)
    ensures CameraIds(st) == {}
    ensures GetCameras(st) == []
  {
    AppState(OrderedDict.Empty())
  }

  /** `get_cameras`: every stored camera once, in creation order. */
  function GetCameras(st: AppState): (r: seq<Camera>)
    requires st.cameras.Valid()
    ensures |r| == |CameraIds(st)| == |st.cameras.order|
    ensures forall i :: 0 <= i < |r| ==> r[i] == st.cameras.entries[st.cameras.order[i]]
    ensures forall id :: id in CameraIds(st) ==> st.cameras.entries[id] in r
  {
    OrderedDict.Values(st.cameras)
  }

  /** `create_camera()` with `freshId` standing for `str(uuid4())`: adds one
      camera keyed by its own id with the all-zero pose and returns it. */
  function CreateCamera(st: AppState, freshId: string): (r: (AppState, Camera))
    requires Valid(st)
    requires freshId !in CameraIds(st)
    ensures Valid(r.0)
    ensures r.1.id == freshId
    ensures |r.1.pose| == 6 && forall i :: 0 <= i < 6 ==> r.1.pose[i] == Finite(0.0)
    ensures CameraIds(r.0) == CameraIds(st) + {freshId}
    ensures |CameraIds(r.0)| == |CameraIds(st)| + 1
    ensures GetCamera(r.0, freshId) == Some(r.1)
    ensures forall id :: id != freshId ==> GetCamera(r.0, id) == GetCamera(st, id)
  {
    var cameras := OrderedDict.Set(st.cameras, freshId, Camera(freshId, ZeroPose));
    (AppState(cameras), cameras.entries[freshId])
  }

  /** `get_cameras` lists cameras in creation order: a created camera comes
      last. */
  lemma CreateAppends(st: AppState, freshId: string)
    requires Valid(st)
    requires freshId !in CameraIds(st)
    ensures GetCameras(CreateCamera(st, freshId).0) == GetCameras(st) + [CreateCamera(st, freshId).1]
  {
    OrderedDict.SetAppends(st.cameras, freshId, Camera(freshId, ZeroPose));
  }

  /** `delete_camera(id)`: removes only `id`; an absent id changes nothing. */
  function DeleteCamera(st: AppState, id: string): (r: AppState)
    requires Valid(st)
    ensures Valid(r)
    ensures CameraIds(r) == CameraIds(st) - {id}
    ensures forall other :: other != id ==> GetCamera(r, other) == GetCamera(st, other)
    ensures id !in CameraIds(st) ==> r == st
  {
    AppState(OrderedDict.Delete(st.cameras, id))
  }

  /** `get_camera(id)`: the stored camera for a present id, `None` otherwise. */
  function GetCamera(st: AppState, id: string): (r: Option<Camera>)
    ensures r.None? <==> id !in CameraIds(st)
    ensures r.Some? ==> r.value == st.cameras.entries[id] && (Valid(st) ==> r.value.id == id)
  {
    OrderedDict.Get(st.cameras, id)
  }
}
