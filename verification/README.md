# blender-camera core, modelled in Dafny

This project models the sequential core of the blender-camera service:

- **Registries.** These are the in-memory registries of entities, scenes and (legacy) cameras. Each is a Python `dict` keyed by a generated string id. The model gives them one shared form, an insertion-ordered dictionary (`OrderedDict.Dict`). Every registry operation is a pure state transition on it.
- **Router handlers.** These are the request handlers of the entity router, with their fixed error precedence. An `HTTPException` becomes a status/detail value, and an in-place mutation becomes the updated registry returned by the handler.
- **Validation and normalisation.** This covers the `validate_pose` shape check and the `BASE_PATH` normalisation.
- **Render buffers.** This is the bookkeeping that turns the renderer's EXR channels into `Frame` buffers: depth-channel priority, data-window dimensions, row-major reshape, three-plane stacking and the zero-angle short cut of the normal rotation. It also covers the clip-and-truncate 8-bit quantisation behind the PNG exports.

Modules follow the source files: `Entities` (entity classes, the `HasPose` protocol), `EntityRegistry` (`EntityModel`), `CameraRegistry` (`CameraModel`), `Scenes` (`Scene`), `SceneRegistry` (`SceneModel`), `LegacyAppState` (`AppState`), `Poses` (`pose.py`), `EntityRoutes` (`entity_id.py`), `FrameRaster` (`models/frame.py`), `Buffers` and `RenderFrameScript` (`render_frame_script.py`), `Utils` (`utils.py`), plus `Wrappers` and `OrderedDict` as helpers.

Modelling choices:
- `uuid4()` is a `freshId` parameter, and a precondition requires it to be absent from the registry. The environment lookup of `BASE_PATH` is an `Option<string>` parameter. An opened EXR file is a value holding its data window, its declared channel names and the flat samples of each channel.
- Python floats in poses are `Float`: a finite `real`, `NaN`, `+inf` or `-inf`. Buffer samples are `real`.
- The Python class of an entity is an explicit chain `EntityBase | Subclass(name, base)`, so `isinstance` is a walk up that chain. `HasPose` is the presence of a `pose` attribute, modelled as `pose: Option<Pose>`.
- The Rodrigues matrix is an input (`rotationInverse`) to `WorldToCameraNormals`. Only the branch structure, the zero-angle short cut and shape preservation are modelled.

Facts about the code that the model keeps as they are:
- The code reads normals only from the channels `X`, `Y`, `Z`. It has no RGB fallback and no default `(0, 0, 1)` buffer.
- Nothing checks that the three EXR files share a data window.
- The code has no pinhole unprojection and no point-cloud writer. `Frame.to_ply_bytes` calls a method that is never defined.
- Quantisation truncates (`astype(np.uint8)` after clipping), so 0.5 maps to 127.

## Model

| member | source | states |
|---|---|---|
| EntityRegistry.New | src/blender_camera/models/entity_model.py:6-10 | a fresh entity registry has no ids and `get_entities` is the empty list |
| EntityRegistry.GetEntities | src/blender_camera/models/entity_model.py:9-10 | the listing has exactly one element per distinct stored id, in insertion order of the ids, contains every stored entity and nothing else |
| EntityRegistry.AddAppends | src/blender_camera/models/entity_model.py:9-21 | adding an entity under a new id appends it to the end of `get_entities` |
| EntityRegistry.Filter | src/blender_camera/models/entity_model.py:13-17 | the comprehension keeps exactly the elements that are instances of the class, never more elements than it started with |
| EntityRegistry.FilterCons | src/blender_camera/models/entity_model.py:13-17 | one step of the comprehension: the head is kept exactly when it is an instance |
| EntityRegistry.FilterCounts | src/blender_camera/models/entity_model.py:13-17 | each instance is kept as many times as it occurs, every non-instance zero times |
| EntityRegistry.FilterConcat | src/blender_camera/models/entity_model.py:13-17 | the comprehension preserves order: filtering `a + b` is filtering `a` followed by filtering `b` |
| EntityRegistry.GetEntitiesByType | src/blender_camera/models/entity_model.py:12-17 | an entity is returned iff it is stored and its class is the given class or derives from it, and as many times as `get_entities` lists it |
| EntityRegistry.ByBaseTypeIsAll | src/blender_camera/models/entity_model.py:12-17 | filtering by the base `Entity` class returns the whole listing, in order |
| Entities.EveryClassIsEntity | src/blender_camera/models/entities/entity.py:7-8 | every entity class (e.g. `Camera`) derives from `Entity` |
| EntityRegistry.AddEntity | src/blender_camera/models/entity_model.py:19-21 | stores the entity under its own id and returns it; ids become old ids plus this one; other ids untouched; count +1 for a new id, unchanged when overwriting |
| EntityRegistry.AddThenGet | src/blender_camera/models/entity_model.py:19-26 | after `add_entity(e)`, `get_entity(e.id)` yields `e` and `e` is listed |
| EntityRegistry.GetEntity | src/blender_camera/models/entity_model.py:23-26 | `None` exactly when the id is not a key, else the stored entity |
| EntityRegistry.DeleteEntity | src/blender_camera/models/entity_model.py:28-31 | removes the id, keeps every other id mapped to the same entity; an absent id leaves the registry identical |
| EntityRegistry.AddThenDelete | src/blender_camera/models/entity_model.py:19-31 | deleting an entity just added under a fresh id restores the previous contents |
| CameraRegistry.CreateCamera | src/blender_camera/models/camera_model.py:13-24 | the camera has the fresh id and the `Camera` class; a missing or empty pose becomes six zeros; a non-empty pose and the intrinsics are stored unchanged; the registry grows by exactly this camera, appended to the listing; the returned camera is the stored one |
| CameraRegistry.SuccessiveIdsDistinct | src/blender_camera/models/camera_model.py:18-24 | under a fresh-id source, successive `create_camera` calls produce pairwise distinct ids, none previously present |
| Scenes.NewScene | src/blender_camera/models/scene.py:5-9 | a new scene carries the given id, an empty well-formed entity registry, and a camera model over that same registry |
| Scenes.CreateCameraInScene | src/blender_camera/models/scene.py:8-9 | a camera created through the scene's camera model is found in the scene's entity model, appended to its listing and in the `Camera`-filtered listing; the scene id and other entities are unchanged |
| Scenes.FirstCameraIsOnlyCamera | src/blender_camera/models/scene.py:5-9 | after creating one camera in a new scene, `get_entities` and `get_entities_by_type(Camera)` are both exactly `[camera]`, so the count is 1 |
| SceneRegistry.New | src/blender_camera/models/scene_model.py:8-12 | a fresh scene registry is empty and `get_scenes` is `[]` |
| SceneRegistry.GetScenes | src/blender_camera/models/scene_model.py:11-12 | one listed scene per stored id, in creation order, every stored scene listed |
| SceneRegistry.CreateAppends | src/blender_camera/models/scene_model.py:11-17 | a created scene is appended to the end of `get_scenes` |
| SceneRegistry.CreateScene | src/blender_camera/models/scene_model.py:14-17 | with a fresh id: exactly one new entry, keyed by the scene's id, holding an empty scene that is returned; other scenes unchanged |
| SceneRegistry.GetScene | src/blender_camera/models/scene_model.py:19-22 | `None` exactly for an absent id, else the stored scene |
| SceneRegistry.DeleteScene | src/blender_camera/models/scene_model.py:24-27 | removes only that id; an absent id is a no-op |
| SceneRegistry.CreateGetDelete | src/blender_camera/models/scene_model.py:14-27 | a created scene is then found by `get_scene`; deleting it makes the lookup `None` and restores the id set |
| LegacyAppState.New | src/blender_camera/app_state.py:6-10 | a fresh `AppState` has no cameras and lists none |
| LegacyAppState.GetCameras | src/blender_camera/app_state.py:9-10 | one listed camera per stored id, in creation order, every stored camera listed |
| LegacyAppState.CreateAppends | src/blender_camera/app_state.py:9-15 | a created camera is appended to the end of `get_cameras` |
| LegacyAppState.CreateCamera | src/blender_camera/app_state.py:12-15 | adds one camera keyed by its own id with six zero pose components and returns it; other cameras unchanged |
| LegacyAppState.DeleteCamera | src/blender_camera/app_state.py:17-20 | removes only that id; an absent id changes nothing |
| LegacyAppState.GetCamera | src/blender_camera/app_state.py:22-25 | the stored camera (whose id is the key) for a present id, `None` otherwise |
| Poses.AsPose | src/blender_camera/models/pose.py:1-10 | a validated value carries a six-component pose, and sending that pose back as a list yields the same value |
| Poses.ValidatePoseCharacterisation | src/blender_camera/models/pose.py:4-10 | `validate_pose` holds iff the value is some six-element pose sent as a list of floats |
| Poses.PoseRoundTrip | src/blender_camera/models/pose.py:4-10 | a pose sent as a list validates iff it has six components, and then reads back unchanged |
| Poses.ValidatePoseRejects | src/blender_camera/models/pose.py:6-10 | lists of length 0, 5 or 7, any int/str/None element, and tuples, dicts or None are rejected |
| Poses.ValidatePoseAcceptsNonFinite | src/blender_camera/models/pose.py:9 | NaN and ±inf elements are accepted |
| EntityRoutes.GetEntityModelOrError | src/blender_camera/api/routes/scenes/scene_id/entities/entity_id.py:80-84 | 404 "Scene not found" exactly for an unknown scene, else that scene's entity registry |
| EntityRoutes.GetEntityOrError | src/blender_camera/api/routes/scenes/scene_id/entities/entity_id.py:86-91 | unknown scene gives 404 "Scene not found" before the entity is considered; unknown entity gives 404 "Entity not found"; success iff both exist, returning the stored entity |
| EntityRoutes.DeleteEntityRoute | src/blender_camera/api/routes/scenes/scene_id/entities/entity_id.py:97-99 | fails (404, registry unchanged) only for an unknown scene; otherwise removes just that entity, other scenes and entities unchanged; an absent entity id succeeds with nothing changed |
| EntityRoutes.GetEntityPose | src/blender_camera/api/routes/scenes/scene_id/entities/entity_id.py:101-105 | lookup errors first, then 400 "Entity has no pose" for an entity without a pose, else its stored pose |
| EntityRoutes.SetEntityPose | src/blender_camera/api/routes/scenes/scene_id/entities/entity_id.py:107-115 | unknown scene, unknown entity, no pose, invalid format are checked in that order and the first applies, with the registry unchanged; on success only that entity's pose is replaced and reads back, all other entities, fields and scenes unchanged |
| EntityRoutes.UnknownSceneShortCircuits | src/blender_camera/api/routes/scenes/scene_id/entities/entity_id.py:80-91 | for an unknown scene the answer is 404 "Scene not found" whatever the entity id and pose |
| EntityRoutes.SetThenGetPose | src/blender_camera/api/routes/scenes/scene_id/entities/entity_id.py:101-115 | setting a valid six-float pose on a pose-bearing entity succeeds and getting it back returns that pose |
| FrameRaster.Quantize | src/blender_camera/models/frame.py:11-12 | the byte lies in 0..255 and is the largest integer not above 255 times the clipped value |
| FrameRaster.QuantizeSaturates | src/blender_camera/models/frame.py:11-12 | values ≤ 0 give 0, values ≥ 1 give 255, in-range values give floor(v·255) |
| FrameRaster.QuantizeTable | src/blender_camera/models/frame.py:11-12 | 0→0, 1→255, 0.5→127, 0.25→63, 0.8→204, −0.5→0, 1.5→255 |
| FrameRaster.QuantizeMonotone | src/blender_camera/models/frame.py:11-12 | v ≤ w implies q(v) ≤ q(w) |
| FrameRaster.ClipIdempotent | src/blender_camera/models/frame.py:11 | clipping twice equals clipping once; in-range values are unchanged |
| FrameRaster.QuantizePlane | src/blender_camera/models/frame.py:9-12 | grayscale quantisation keeps the H×W shape and acts cell by cell |
| FrameRaster.QuantizeImage | src/blender_camera/models/frame.py:9-12 | H×W×3 quantisation keeps the shape and acts component by component |
| FrameRaster.ClipThenQuantizePlane | src/blender_camera/models/frame.py:35-38 | pre-clipping a plane before quantising changes nothing |
| FrameRaster.ClipThenQuantizeImage | src/blender_camera/models/frame.py:40-46 | pre-clipping an image before quantising changes nothing |
| FrameRaster.DepthBytes | src/blender_camera/models/frame.py:35-38 | the depth byte grid equals the quantised depth buffer, the extra clip notwithstanding |
| FrameRaster.NormalBytes | src/blender_camera/models/frame.py:40-42 | the normal byte grid equals the quantised normal buffer |
| FrameRaster.ColorBytes | src/blender_camera/models/frame.py:44-46 | the colour byte grid equals the quantised colour buffer |
| Buffers.Reshape | src/blender_camera/scripts/render_frame_script.py:48 | reshape succeeds iff the sample count is height·width with non-negative dimensions; then out[r][c] = flat[r·width + c] |
| Buffers.FlattenIndex | src/blender_camera/scripts/render_frame_script.py:63-65 | cell (r, c) of an H×W grid sits at row-major offset r·width + c of its flattening, which has H·W values |
| Buffers.ReshapeFlatten | src/blender_camera/scripts/render_frame_script.py:63-65 | reshaping the flattening of an H×W grid gives the grid back |
| Buffers.FlattenReshape | src/blender_camera/scripts/render_frame_script.py:63-65 | flattening a reshaped buffer gives the buffer back |
| Buffers.Stack3 | src/blender_camera/scripts/render_frame_script.py:66 | stacking keeps the plane shape and out[r][c] = (a[r][c], b[r][c], c[r][c]) |
| Buffers.StackChannels | src/blender_camera/scripts/render_frame_script.py:60-66 | channel k of a stack is the k-th plane stacked, in order |
| Buffers.ChannelsStack | src/blender_camera/scripts/render_frame_script.py:92 | stacking the three channels of an image rebuilds it |
| RenderFrameScript.DimensionsCountPixels | src/blender_camera/scripts/render_frame_script.py:29-31 | width and height from inclusive bounds equal the numbers of covered columns and rows |
| RenderFrameScript.Span | src/blender_camera/scripts/render_frame_script.py:29-31 | the covered coordinates are exactly those between the inclusive bounds |
| RenderFrameScript.FirstPresent | src/blender_camera/scripts/render_frame_script.py:37-41 | the loop picks the first candidate declared, with none earlier declared, or reports that none is |
| RenderFrameScript.SelectDepthChannel | src/blender_camera/scripts/render_frame_script.py:36-45 | the first declared of Z, Depth, R, G, B, A (so Z whenever present); else the first declared channel; else "R"; a member of the channels whenever they are non-empty |
| RenderFrameScript.ReadChannel | src/blender_camera/scripts/render_frame_script.py:47 | reading succeeds iff the channel exists and yields its samples, else a missing-channel error |
| RenderFrameScript.ReshapeToWindow | src/blender_camera/scripts/render_frame_script.py:48 | succeeds iff the samples fit the data window, giving an H×W grid that flattens back to the samples |
| RenderFrameScript.ConvertDepth | src/blender_camera/scripts/render_frame_script.py:24-48 | the selected channel missing is an error; otherwise the result is that channel reshaped to the window, flattening back to its samples |
| RenderFrameScript.ConvertTriplet | src/blender_camera/scripts/render_frame_script.py:60-66 | missing channels reported in read order; success iff all three exist and fit the window; channel k of the result is the k-th named channel |
| RenderFrameScript.ConvertNormal | src/blender_camera/scripts/render_frame_script.py:51-68 | a missing X, then Y, then Z is reported in that order; success iff all three exist with one sample per pixel of the window; the result's x, y, z channels are the file's X, Y, Z channels, on the data-window grid |
| RenderFrameScript.ConvertColor | src/blender_camera/scripts/render_frame_script.py:71-92 | a missing R, then G, then B is reported in that order; success iff all three exist with one sample per pixel of the window; the result's r, g, b channels are the file's R, G, B channels, on the data-window grid |
| RenderFrameScript.WorldToCameraNormals | src/blender_camera/scripts/render_frame_script.py:95-143 | a pose shorter than six fails; a negligible angle returns the normals unchanged; otherwise each normal is multiplied by the inverse rotation; the shape is always kept |
| RenderFrameScript.IdentityRotationIsNoOp | src/blender_camera/scripts/render_frame_script.py:111-143 | with the identity rotation both branches leave every normal unchanged |
| RenderFrameScript.DecodeFrame | src/blender_camera/scripts/render_frame_script.py:169-176 | the first failing stage in argument order (depth, normals, missing pose, short pose, colour) decides the error; success iff every stage succeeds; on success the frame holds the camera and the three converted buffers |
| RenderFrameScript.NoChannelsMeansMissingR | src/blender_camera/scripts/render_frame_script.py:43-47 | a well-formed file that declares no channel falls back to `R` and fails with a missing `R` |
| RenderFrameScript.DepthChannelIsReadable | src/blender_camera/scripts/render_frame_script.py:36-48 | in a well-formed file with some channel, the selected depth channel can be read, and it converts whenever the samples fit the window |
| RenderFrameScript.DecodeFrameSucceeds | src/blender_camera/scripts/render_frame_script.py:165-176 | well-formed files whose channels fit their windows and carry a depth channel, X/Y/Z and R/G/B, with a camera holding a six-component pose, always decode to a frame |
| Utils.NormalizeBasePath | src/blender_camera/utils.py:26-30 | "" and all-slash values give ""; otherwise "/" followed by the value between its leading and trailing slashes; the result is "" or starts with "/" and does not end with "/" |
| Utils.GetBasePath | src/blender_camera/utils.py:24-30 | an unset variable gives ""; otherwise the normalised value as above |
| Utils.NormalizeIdempotent | src/blender_camera/utils.py:26-30 | normalising a normalised base path returns it unchanged |

## Left out

- The Blender subprocess (`Blender.run`), `RenderFrameScript.execute`'s temporary files, `_write_tmp_state` and `BlenderFrame.__exit__` are process spawning and file I/O. `DecodeFrame` starts once the three files exist.
- OpenEXR file reading and `np.frombuffer` are left out. Files are given as data windows, channel names and sample sequences. `RenderFrameScript.WellFormed` states what a file read from disk satisfies: `max >= min` in both directions, and the declared channels are exactly the readable ones.
- Buffers.Reshape: numpy's `-1` wildcard dimension is not modelled, and every negative dimension is refused. A well-formed data window never yields a negative dimension.
- The Rodrigues matrix numerics (`sqrt`, `sin`, `cos`) are floating point, so the matrix is an input. `NegligibleRotation` compares the squared magnitude with 1e-16 instead of `sqrt(...) < 1e-8`, which is equivalent for real numbers.
- PNG encoding (PIL) is left out. Only the quantised byte grid is modelled.
- FrameRaster.Quantize: it works over exact reals and does not model float32 rounding of `v * 255`, which can differ from the real floor at exact multiples of 1/255. NaN and infinite samples are left out, because NaN is undefined under the `uint8` cast.
- `Frame.to_ply_bytes`, `BlenderFrame` and the point-cloud/unprojection pipeline call methods that are never defined, so there is nothing to model.
- `Frame.__init__` is the datatype constructor `FrameRaster.Frame`. It has no contract of its own, because its fields are its arguments.
- `_get_entity` (`model_dump` of the result of `GetEntityOrError`), the point-cloud and image endpoints, and the other routers are left out. They are framework glue, or they forward to the renderer.
- `CameraIdRouter` calls `camera_model.get_camera`, which does not exist.
- `get_version`, `get_log_level` and `log_banner` are environment and logging only.
- `uuid4` randomness is replaced by the fresh-id precondition.
- Python object identity and aliasing are not modelled. In-place mutation of a shared `Scene`/`EntityModel` is modelled by returning the updated registry, and a camera model is a view over its scene's registry.
