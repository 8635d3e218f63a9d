/** Entities as the registries store them (src/blender_camera/models/entities/,
    src/blender_camera/models/components/, src/blender_camera/models/camera_intrinsics.py). */
module Entities {
  import opened Wrappers
  import opened Poses

  /** The Python class of an entity: `Entity` itself, or a class derived
      (single inheritance) from another entity class. */
  datatype EntityClass = EntityBase | Subclass(name: string, base: EntityClass)

  /** `class Camera(Entity)` */
  const CameraClass: EntityClass := Subclass("Camera", EntityBase)

  /** `issubclass(c, k)` along the single-inheritance chain. */
  predicate IsSubclassOf(c: EntityClass, k: EntityClass) {
    c == k || (c.Subclass? && IsSubclassOf(c.base, k))
  }

  /** Every entity class derives from `Entity`. */
  lemma {:induction false} EveryClassIsEntity(c: EntityClass)
    ensures IsSubclassOf(c, EntityBase)
  {
    match c
    case EntityBase =>
    case Subclass(_, b) => EveryClassIsEntity(b);
  }

  /** Pinhole parameters; stored, never interpreted here. */
  datatype Intrinsics = Intrinsics(fx: Float, fy: Float, cx: Float, cy: Float)

  /** A stored entity. `pose` is `None` when the object has no `pose`
      attribute (it is not `HasPose`); `intrinsics` is `None` both when the
      attribute is missing and when it holds `None`. */
  datatype Entity = Entity(id: string, cls: EntityClass, pose: Option<Pose>, intrinsics: Option<Intrinsics>)

  /** `isinstance(e, k)` */
  predicate IsInstance(e: Entity, k: EntityClass) {
    IsSubclassOf(e.cls, k)
  }

  /** `isinstance(e, HasPose)`: the runtime-checkable protocol only asks
      whether the attribute exists. */
  predicate HasPose(e: Entity) {
    e.pose.Some?
  }
}
