/** The world snapshot the desktop app reads from its world file and hands to
    the neural renderer. Only the fields those two read are modelled; every
    optional field of the file stays an `Option`. */
module WorldSnapshot {
  import opened Base

  datatype Vec3 = Vec3(x: real, y: real, z: real)

  /** A rotation quaternion, carried but never read. */
  datatype Quat = Quat(x: real, y: real, z: real, w: real)

  const Origin := Vec3(0.0, 0.0, 0.0)

  /** Unit scale, and also white. */
  const Ones := Vec3(1.0, 1.0, 1.0)

  datatype TransformData = TransformData(translation: Option<Vec3>, rotation: Option<Quat>, scale: Option<Vec3>)
  datatype MaterialData = MaterialData(color: Option<Vec3>)

  datatype WorldEntity = WorldEntity(id: string, kind: Option<string>, transform: TransformData, material: MaterialData)

  datatype Camera = Camera(translation: Option<Vec3>)
  datatype Light = Light(color: Option<Vec3>, intensity: Option<real>)

  datatype Snapshot = Snapshot(entities: seq<WorldEntity>, camera: Option<Camera>, light: Option<Light>)

  /** The placement an entity is drawn with: the file's values, with the
      origin, unit scale and white standing in for missing ones. */
  function TranslationOf(e: WorldEntity): Vec3 {
    e.transform.translation.UnwrapOr(Origin)
  }

  function ScaleOf(e: WorldEntity): Vec3 {
    e.transform.scale.UnwrapOr(Ones)
  }

  function ColorOf(e: WorldEntity): Vec3 {
    e.material.color.UnwrapOr(Ones)
  }
}
